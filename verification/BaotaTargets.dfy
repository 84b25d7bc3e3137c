/**
 The list of Baota panel instances (internal/baota_targets.go): its validation on save, its merge
 into the process configuration, and the choice of one instance for a request.
 */
module BaotaTargets {
  import opened Wrappers
  import opened GoStrings

  // A stored instance
  datatype Row = Row(id: string, name: string, url: string, apiKey: string, skip: Option<bool>, isDefault: bool)

  // An instance in the process configuration
  datatype Entry = Entry(id: string, displayName: string, url: string, apiKey: string, skip: Option<bool>, defaultForSync: bool)

  datatype Config = Config(targets: seq<Entry>, url: string, apiKey: string, skip: bool)

  datatype Error = BadId | DuplicateId | MissingUrl | BadUrl | BadScheme | MissingKey

  class RuntimeSettings {
    var targets: seq<Row>
    var url: string
    var apiKey: string
    var skip: Option<bool>

    constructor (targets: seq<Row>, url: string, apiKey: string, skip: Option<bool>)
      ensures this.targets == targets && this.url == url && this.apiKey == apiKey && this.skip == skip
    {
      this.targets, this.url, this.apiKey, this.skip := targets, url, apiKey, skip;
    }
  }

  // ---------- ids ----------

  predicate Alnum(c: char) { 'a' <= c <= 'z' || IsDigit(c) }

  // ^[a-z0-9](?:[a-z0-9-]{0,61}[a-z0-9])?$
  predicate ValidId(id: string) {
    1 <= |id| <= 63 && Alnum(id[0]) && Alnum(id[|id| - 1]) && forall c :: c in id ==> Alnum(c) || c == '-'
  }

  function NormalId(raw: string): Option<string> {
    var id := TrimSpace(ToLower(raw));
    if ValidId(id) then Some(id) else None
  }

  lemma ValidIdIsNormal(id: string)
    requires ValidId(id)
    ensures NormalId(id) == Some(id)
  {
    forall i | 0 <= i < |id| ensures ToLower(id)[i] == id[i] {
      assert id[i] in id;
    }
    assert ToLower(id) == id;
  }

  // The normal form of an id: lower case, trimmed, 1 to 63 letters, digits and inner hyphens.
  lemma NormalIdIs(raw: string)
    ensures var id := TrimSpace(ToLower(raw));
      (NormalId(raw).Some? ==> NormalId(raw).value == id) &&
      (NormalId(raw).Some? <==>
        1 <= |id| <= 63 && id[0] != '-' && id[|id| - 1] != '-' &&
        forall i :: 0 <= i < |id| ==> 'a' <= id[i] <= 'z' || '0' <= id[i] <= '9' || id[i] == '-')
  {
    hide ToLower, TrimSpace;
    var id := TrimSpace(ToLower(raw));
    assert forall i :: 0 <= i < |id| ==> id[i] in id;
  }

  // ---------- one row of a PUT ----------

  // What is stored now: the rows and the top-level key.
  datatype Current = Current(targets: seq<Row>, apiKey: string)

  // The stored rows by normal id; a later row wins.
  function ById(rows: seq<Row>): map<string, Row> {
    if rows == [] then map[]
    else
      var m, last := ById(rows[..|rows| - 1]), rows[|rows| - 1];
      match NormalId(last.id)
      case None => m
      case Some(id) => m[id := last]
  }

  predicate MaskedKey(key: string) { key == "" || key == "***" }

  // The key a row keeps: its own, or else the stored one of the same id, or else, for a list of
  // one, the stored top-level key.
  function KeptKey(id: string, raw: string, byId: map<string, Row>, cur: Option<Current>, single: bool): string {
    var key := TrimSpace(raw);
    if !MaskedKey(key) then key
    else if id in byId && TrimSpace(byId[id].apiKey) != "" then TrimSpace(byId[id].apiKey)
    else if cur.Some? && TrimSpace(cur.value.apiKey) != "" && single then TrimSpace(cur.value.apiKey)
    else key
  }

  predicate HttpUrl(u: string) {
    "http://" <= ToLower(u) || "https://" <= ToLower(u)
  }

  // `parses` is net/url's parser accepting the text.
  function NormRow(row: Row, seen: set<string>, byId: map<string, Row>, cur: Option<Current>, single: bool, parses: string -> bool)
    : Result<Row, Error>
  {
    match NormalId(row.id)
    case None => Err(BadId)
    case Some(id) =>
      var u := TrimSpace(row.url);
      var key := KeptKey(id, row.apiKey, byId, cur, single);
      if id in seen then Err(DuplicateId)
      else if u == "" then Err(MissingUrl)
      else if !parses(u) then Err(BadUrl)
      else if !HttpUrl(u) then Err(BadScheme)
      else if MaskedKey(key) then Err(MissingKey)
      else Ok(Row(id, TrimSpace(row.name), u, key, row.skip, row.isDefault))
  }

  function Ids(rows: seq<Row>): set<string> { set r | r in rows :: r.id }

  function NormRows(rows: seq<Row>, byId: map<string, Row>, cur: Option<Current>, single: bool, parses: string -> bool)
    : Result<seq<Row>, Error>
  {
    if rows == [] then Ok([])
    else
      match NormRows(rows[..|rows| - 1], byId, cur, single, parses)
      case Err(e) => Err(e)
      case Ok(done) =>
        match NormRow(rows[|rows| - 1], Ids(done), byId, cur, single, parses)
        case Err(e) => Err(e)
        case Ok(row) => Ok(done + [row])
  }

  // ---------- exactly one default ----------

  // The first default, or the first row if there is none.
  function FirstDefault(rows: seq<Row>): (k: nat)
    requires rows != []
    ensures k < |rows|
    ensures forall i :: 0 <= i < k ==> !rows[i].isDefault
    ensures !rows[k].isDefault ==> k == 0 && forall i :: 0 <= i < |rows| ==> !rows[i].isDefault
  {
    if rows[0].isDefault then 0
    else if |rows| == 1 then 0
    else
      var k := FirstDefault(rows[1..]);
      if rows[1..][k].isDefault then k + 1 else 0
  }

  function WithDefault(rows: seq<Row>, k: nat): seq<Row> {
    seq(|rows|, i requires 0 <= i < |rows| => rows[i].(isDefault := i == k))
  }

  function DefaultCount(rows: seq<Row>): nat {
    if rows == [] then 0 else DefaultCount(rows[..|rows| - 1]) + if rows[|rows| - 1].isDefault then 1 else 0
  }

  lemma {:induction false} DefaultCountMeans(rows: seq<Row>)
    ensures DefaultCount(rows) == 0 <==> forall r :: r in rows ==> !r.isDefault
    ensures DefaultCount(rows) <= 1 <==>
              forall i, j :: 0 <= i < j < |rows| ==> !(rows[i].isDefault && rows[j].isDefault)
  {
    if rows != [] {
      var init := rows[..|rows| - 1];
      DefaultCountMeans(init);
      assert rows == init + [rows[|rows| - 1]];
      if DefaultCount(rows) > 1 && DefaultCount(init) <= 1 {
        var r :| r in init && r.isDefault;
        var i :| 0 <= i < |init| && init[i] == r;
        assert rows[i].isDefault && rows[|rows| - 1].isDefault;
      }
      if DefaultCount(init) > 1 {
        var i, j :| 0 <= i < j < |init| && init[i].isDefault && init[j].isDefault;
        assert rows[i].isDefault && rows[j].isDefault;
      }
    }
  }

  lemma {:induction false} NormRowsLength(rows: seq<Row>, byId: map<string, Row>, cur: Option<Current>, single: bool, parses: string -> bool)
    ensures var r := NormRows(rows, byId, cur, single, parses); r.Ok? ==> |r.value| == |rows|
  {
    hide NormRow;
    if rows != [] {
      NormRowsLength(rows[..|rows| - 1], byId, cur, single, parses);
    }
  }

  function CurrentById(cur: Option<Current>): map<string, Row> {
    if cur.Some? then ById(cur.value.targets) else map[]
  }

  // The rows a PUT stores.
  function PutRows(rows: seq<Row>, cur: Option<Current>, parses: string -> bool): Result<seq<Row>, Error>
    requires rows != []
  {
    NormRowsLength(rows, CurrentById(cur), cur, |rows| == 1, parses);
    match NormRows(rows, CurrentById(cur), cur, |rows| == 1, parses)
    case Err(e) => Err(e)
    case Ok(norm) => Ok(WithDefault(norm, FirstDefault(norm)))
  }

  function DefaultRow(rows: seq<Row>): Row
    requires rows != []
  {
    rows[FirstDefault(rows)]
  }

  ghost function CurrentOf(cur: RuntimeSettings?): Option<Current>
    reads cur
  {
    if cur == null then None else Some(Current(cur.targets, cur.apiKey))
  }

  method IndexById(rows: seq<Row>) returns (byId: map<string, Row>)
    ensures byId == ById(rows)
  {
    hide NormalId;
    byId := map[];
    for i := 0 to |rows|
      invariant byId == ById(rows[..i])
    {
      assert rows[..i + 1][..i] == rows[..i];
      var id := NormalId(rows[i].id);
      if id.None? {
        continue;
      }
      byId := byId[id.value := rows[i]];
    }
    assert rows[..|rows|] == rows;
  }

  // mergeAndValidateRuntimeBaotaTargetsOnPut
  method PutTargets(body: RuntimeSettings, cur: RuntimeSettings?, parses: string -> bool) returns (r: Result<(), Error>)
    requires cur != body
    modifies body
    ensures body.skip == old(body.skip)
    ensures old(body.targets) == [] ==>
              r == Ok(()) && body.targets == [] && body.url == old(body.url) && body.apiKey == old(body.apiKey)
    ensures
      var before, now := old(body.targets), old(CurrentOf(cur));
      before != [] ==>
      match PutRows(before, now, parses)
      case Err(e) =>
        r == Err(e) && body.targets == before && body.url == old(body.url) && body.apiKey == old(body.apiKey)
      case Ok(rows) =>
        r == Ok(()) && rows != [] && body.targets == rows &&
        body.url == TrimSpace(DefaultRow(rows).url) && body.apiKey == TrimSpace(DefaultRow(rows).apiKey)
  {
    hide NormalId, KeptKey, TrimSpace, HttpUrl, MaskedKey;
    if |body.targets| == 0 {
      return Ok(());
    }
    ghost var now := CurrentOf(cur);
    var byIdCur := map[];
    if cur != null {
      byIdCur := IndexById(cur.targets);
    }
    assert byIdCur == CurrentById(now);
    var norm := NormaliseRows(body.targets, byIdCur, if cur == null then None else Some(cur.apiKey), parses, now);
    if norm.Err? {
      return Err(norm.error);
    }
    NormRowsLength(body.targets, byIdCur, now, |body.targets| == 1, parses);
    var rows := OneDefault(norm.value);
    body.targets := rows;
    DefaultIsUnique(norm.value);
    for i := 0 to |rows|
      invariant body.targets == rows && body.skip == old(body.skip)
      invariant forall j :: 0 <= j < i ==> !rows[j].isDefault
    {
      if rows[i].isDefault {
        body.url := TrimSpace(rows[i].url);
        body.apiKey := TrimSpace(rows[i].apiKey);
        return Ok(());
      }
    }
  }

  lemma DefaultIsUnique(rows: seq<Row>)
    requires rows != []
    ensures FirstDefault(WithDefault(rows, FirstDefault(rows))) == FirstDefault(rows)
    ensures WithDefault(rows, FirstDefault(rows))[FirstDefault(rows)].isDefault
  {
    var k := FirstDefault(rows);
    var fixed := WithDefault(rows, k);
    assert fixed[k].isDefault;
  }

  // One pass of the validation loop.
  method NormaliseRow(row: Row, seen: set<string>, byIdCur: map<string, Row>, curKey: Option<string>, single: bool,
                      parses: string -> bool, ghost cur: Option<Current>) returns (r: Result<Row, Error>)
    requires curKey == if cur.None? then None else Some(cur.value.apiKey)
    ensures r == NormRow(row, seen, byIdCur, cur, single, parses)
  {
    hide NormalId, TrimSpace, HttpUrl;
    var id := NormalId(row.id);
    if id.None? {
      return Err(BadId);
    }
    if id.value in seen {
      return Err(DuplicateId);
    }
    var u := TrimSpace(row.url);
    if u == "" {
      return Err(MissingUrl);
    }
    if !parses(u) {
      return Err(BadUrl);
    }
    if !HttpUrl(u) {
      return Err(BadScheme);
    }
    var key := TrimSpace(row.apiKey);
    if MaskedKey(key) {
      if id.value in byIdCur && TrimSpace(byIdCur[id.value].apiKey) != "" {
        key := TrimSpace(byIdCur[id.value].apiKey);
      } else if curKey.Some? && TrimSpace(curKey.value) != "" && single {
        key := TrimSpace(curKey.value);
      }
    }
    if MaskedKey(key) {
      return Err(MissingKey);
    }
    r := Ok(Row(id.value, TrimSpace(row.name), u, key, row.skip, row.isDefault));
  }

  // The validation loop.
  method NormaliseRows(rows: seq<Row>, byIdCur: map<string, Row>, curKey: Option<string>, parses: string -> bool,
                       ghost cur: Option<Current>) returns (r: Result<seq<Row>, Error>)
    requires curKey == if cur.None? then None else Some(cur.value.apiKey)
    ensures r == NormRows(rows, byIdCur, cur, |rows| == 1, parses)
  {
    hide NormRow;
    var seen: set<string> := {};
    var norm: seq<Row> := [];
    for i := 0 to |rows|
      invariant seen == Ids(norm)
      invariant NormRows(rows[..i], byIdCur, cur, |rows| == 1, parses) == Ok(norm)
    {
      NormRowsPrefix(rows, i, byIdCur, cur, |rows| == 1, parses);
      var row := NormaliseRow(rows[i], seen, byIdCur, curKey, |rows| == 1, parses, cur);
      if row.Err? {
        return Err(row.error);
      }
      seen := seen + {row.value.id};
      IdsSnoc(norm, row.value);
      norm := norm + [row.value];
    }
    assert rows[..|rows|] == rows;
    r := Ok(norm);
  }

  lemma IdsSnoc(rows: seq<Row>, row: Row)
    ensures Ids(rows + [row]) == Ids(rows) + {row.id}
  {
    assert row in rows + [row];
  }

  // An error stops the validation: later rows cannot repair it.
  lemma {:induction false} NormRowsPrefix(rows: seq<Row>, i: nat, byId: map<string, Row>, cur: Option<Current>, single: bool, parses: string -> bool)
    requires i < |rows| && NormRows(rows[..i], byId, cur, single, parses).Ok?
    ensures
      var done := NormRows(rows[..i], byId, cur, single, parses).value;
      match NormRow(rows[i], Ids(done), byId, cur, single, parses)
      case Ok(row) => NormRows(rows[..i + 1], byId, cur, single, parses) == Ok(done + [row])
      case Err(e) => NormRows(rows, byId, cur, single, parses) == Err(e)
    decreases |rows|
  {
    hide NormRow;
    assert rows[..i + 1][..i] == rows[..i];
    if i + 1 == |rows| {
      assert rows[..i + 1] == rows;
    } else {
      var init := rows[..|rows| - 1];
      assert init[..i] == rows[..i] && init[i] == rows[i] && init[..i + 1] == rows[..i + 1];
      NormRowsPrefix(init, i, byId, cur, single, parses);
    }
  }

  method CountDefaults(rows: seq<Row>) returns (n: nat)
    ensures n == DefaultCount(rows)
  {
    n := 0;
    for i := 0 to |rows|
      invariant n == DefaultCount(rows[..i])
    {
      assert rows[..i + 1][..i] == rows[..i];
      if rows[i].isDefault {
        n := n + 1;
      }
    }
    assert rows[..|rows|] == rows;
  }

  // Counting the defaults and repairing the list.
  method OneDefault(rows: seq<Row>) returns (norm: seq<Row>)
    requires rows != []
    ensures norm == WithDefault(rows, FirstDefault(rows))
  {
    hide DefaultCount;
    norm := rows;
    var defN := CountDefaults(rows);
    DefaultCountMeans(rows);
    assert forall i :: 0 <= i < |rows| ==> rows[i] in rows;
    if defN == 0 {
      norm := norm[0 := norm[0].(isDefault := true)];
    } else if defN > 1 {
      norm := KeepFirstDefault(norm);
    }
  }

  method KeepFirstDefault(rows: seq<Row>) returns (norm: seq<Row>)
    requires rows != [] && rows[FirstDefault(rows)].isDefault
    ensures norm == WithDefault(rows, FirstDefault(rows))
  {
    ghost var k := FirstDefault(rows);
    norm := rows;
    var first := true;
    for i := 0 to |norm|
      invariant |norm| == |rows|
      invariant first <==> i <= k
      invariant forall j :: 0 <= j < i ==> norm[j] == rows[j].(isDefault := j == k)
      invariant forall j :: i <= j < |norm| ==> norm[j] == rows[j]
    {
      if norm[i].isDefault {
        if !first {
          norm := norm[i := norm[i].(isDefault := false)];
        }
        first := false;
      }
    }
  }

  // ---------- what a successful PUT guarantees ----------

  predicate NormalRow(r: Row, parses: string -> bool) {
    ValidId(r.id) && Trimmed(r.name) &&
    Trimmed(r.url) && r.url != "" && parses(r.url) && HttpUrl(r.url) &&
    Trimmed(r.apiKey) && !MaskedKey(r.apiKey)
  }

  predicate DistinctIds(rows: seq<Row>) {
    forall i, j :: 0 <= i < j < |rows| ==> rows[i].id != rows[j].id
  }

  predicate OnlyDefault(rows: seq<Row>, k: nat) {
    k < |rows| && forall i :: 0 <= i < |rows| ==> (rows[i].isDefault <==> i == k)
  }

  // Distinct normal ids, usable URLs, real keys, and exactly one default.
  ghost predicate Normalised(rows: seq<Row>, parses: string -> bool) {
    (forall i :: 0 <= i < |rows| ==> NormalRow(rows[i], parses)) && DistinctIds(rows) &&
    exists k :: OnlyDefault(rows, k)
  }

  lemma NormRowIsNormal(row: Row, seen: set<string>, byId: map<string, Row>, cur: Option<Current>, single: bool, parses: string -> bool)
    ensures
      var r := NormRow(row, seen, byId, cur, single, parses);
      r.Ok? ==> NormalRow(r.value, parses) && r.value.id !in seen
  {
    hide TrimSpace, ToLower, HttpUrl, ValidId;
  }

  lemma {:induction false} NormRowsAreNormal(rows: seq<Row>, byId: map<string, Row>, cur: Option<Current>, single: bool, parses: string -> bool)
    ensures
      var r := NormRows(rows, byId, cur, single, parses);
      r.Ok? ==> (forall i :: 0 <= i < |r.value| ==> NormalRow(r.value[i], parses)) && DistinctIds(r.value)
  {
    hide NormRow, NormalRow;
    if rows != [] {
      var init := rows[..|rows| - 1];
      NormRowsAreNormal(init, byId, cur, single, parses);
      var r := NormRows(init, byId, cur, single, parses);
      if r.Ok? {
        NormRowIsNormal(rows[|rows| - 1], Ids(r.value), byId, cur, single, parses);
        assert forall i :: 0 <= i < |r.value| ==> r.value[i] in r.value;
      }
    }
  }

  // Every accepted PUT stores a normalised list; its length is that of the request.
  lemma PutNormalises(rows: seq<Row>, cur: Option<Current>, parses: string -> bool)
    requires rows != []
    ensures
      var r := PutRows(rows, cur, parses);
      r.Ok? ==> |r.value| == |rows| && Normalised(r.value, parses) && OnlyDefault(r.value, FirstDefault(r.value))
  {
    hide NormRows, NormalRow;
    var norm := NormRows(rows, CurrentById(cur), cur, |rows| == 1, parses);
    NormRowsLength(rows, CurrentById(cur), cur, |rows| == 1, parses);
    NormRowsAreNormal(rows, CurrentById(cur), cur, |rows| == 1, parses);
    if norm.Ok? {
      var k := FirstDefault(norm.value);
      var fixed := WithDefault(norm.value, k);
      DefaultIsUnique(norm.value);
      assert OnlyDefault(fixed, k);
      forall i | 0 <= i < |fixed| ensures NormalRow(fixed[i], parses) {
        SameButDefault(norm.value[i], i == k, parses);
      }
    }
  }

  lemma SameButDefault(r: Row, d: bool, parses: string -> bool)
    ensures NormalRow(r.(isDefault := d), parses) == NormalRow(r, parses)
  {
  }

  // ---------- saving again, with keys hidden ----------

  // The same list with some keys blanked or masked.
  predicate Masks(rows: seq<Row>, masked: seq<Row>) {
    |masked| == |rows| &&
    forall i :: 0 <= i < |rows| ==>
      masked[i].(apiKey := rows[i].apiKey) == rows[i] &&
      (masked[i].apiKey == rows[i].apiKey || MaskedKey(TrimSpace(masked[i].apiKey)))
  }

  lemma {:induction false} ByIdFinds(rows: seq<Row>, i: nat)
    requires i < |rows| && DistinctIds(rows) && forall j :: 0 <= j < |rows| ==> ValidId(rows[j].id)
    ensures rows[i].id in ById(rows) && ById(rows)[rows[i].id] == rows[i]
  {
    hide ValidId, NormalId;
    var init, last := rows[..|rows| - 1], rows[|rows| - 1];
    ValidIdIsNormal(last.id);
    if i < |init| {
      ByIdFinds(init, i);
      assert init[i] == rows[i];
    }
  }

  // A row given for a stored one: the same but for a hidden key, which the stored rows know.
  predicate Gives(row: Row, given: Row, byId: map<string, Row>) {
    given.(apiKey := row.apiKey) == row &&
    (given.apiKey == row.apiKey || (MaskedKey(TrimSpace(given.apiKey)) && row.id in byId && byId[row.id] == row))
  }

  lemma NormalRowIsKept(row: Row, given: Row, seen: set<string>, byId: map<string, Row>, cur: Option<Current>, single: bool, parses: string -> bool)
    requires NormalRow(row, parses) && row.id !in seen && Gives(row, given, byId)
    ensures NormRow(given, seen, byId, cur, single, parses) == Ok(row)
  {
    hide ToLower, HttpUrl, ValidId, NormalId;
    ValidIdIsNormal(row.id);
  }

  lemma {:induction false} NormalRowsAreKept(rows: seq<Row>, given: seq<Row>, byId: map<string, Row>, cur: Option<Current>, single: bool,
                                            parses: string -> bool)
    requires |given| == |rows| && DistinctIds(rows)
    requires forall i :: 0 <= i < |rows| ==> NormalRow(rows[i], parses) && Gives(rows[i], given[i], byId)
    ensures NormRows(given, byId, cur, single, parses) == Ok(rows)
  {
    hide NormalRow, NormRow, Gives;
    if given != [] {
      var n := |rows| - 1;
      var init := rows[..n];
      NormalRowsAreKept(init, given[..n], byId, cur, single, parses);
      forall r | r in init ensures r.id != rows[n].id {
        var i :| 0 <= i < n && init[i] == r;
      }
      NormalRowIsKept(rows[n], given[n], Ids(init), byId, cur, single, parses);
      assert rows == init + [rows[n]];
    }
  }

  lemma DefaultKept(rows: seq<Row>, k: nat)
    requires OnlyDefault(rows, k)
    ensures FirstDefault(rows) == k && WithDefault(rows, k) == rows
  {
    var f := FirstDefault(rows);
    assert rows[k].isDefault && (rows[f].isDefault <==> f == k);
  }

  // Saving a normalised list again is the identity, whatever is stored.
  lemma PutIsIdempotent(rows: seq<Row>, cur: Option<Current>, parses: string -> bool)
    requires rows != [] && Normalised(rows, parses)
    ensures PutRows(rows, cur, parses) == Ok(rows)
  {
    hide NormRows, NormalRow;
    NormalRowsAreKept(rows, rows, CurrentById(cur), cur, |rows| == 1, parses);
    var k :| OnlyDefault(rows, k);
    DefaultKept(rows, k);
  }

  // Saving the stored list with any of its keys blanked or masked restores exactly the stored list.
  lemma MaskedPutRestores(rows: seq<Row>, given: seq<Row>, key: string, parses: string -> bool)
    requires rows != [] && Normalised(rows, parses) && Masks(rows, given)
    ensures PutRows(given, Some(Current(rows, key)), parses) == Ok(rows)
  {
    hide NormRows, MaskedKey, TrimSpace, HttpUrl, ValidId;
    var cur := Some(Current(rows, key));
    forall i | 0 <= i < |rows| ensures rows[i].id in CurrentById(cur) && CurrentById(cur)[rows[i].id] == rows[i] {
      ByIdFinds(rows, i);
    }
    NormalRowsAreKept(rows, given, CurrentById(cur), cur, |given| == 1, parses);
    var k :| OnlyDefault(rows, k);
    DefaultKept(rows, k);
  }

  // ---------- what a PUT means, row by row ----------

  // Row k is the last one stored under this id.
  ghost predicate LastStored(rows: seq<Row>, id: string, k: nat) {
    k < |rows| && NormalId(rows[k].id) == Some(id) && forall m :: k < m < |rows| ==> NormalId(rows[m].id) != Some(id)
  }

  lemma {:induction false} ByIdIsLast(rows: seq<Row>, id: string)
    ensures id in ById(rows) ==> exists k: nat :: LastStored(rows, id, k) && ById(rows)[id] == rows[k]
    ensures id !in ById(rows) ==> forall m :: 0 <= m < |rows| ==> NormalId(rows[m].id) != Some(id)
  {
    hide NormalId;
    if rows != [] {
      var n := |rows| - 1;
      ByIdIsLast(rows[..n], id);
      if NormalId(rows[n].id) == Some(id) {
        assert LastStored(rows, id, n);
      } else if id in ById(rows[..n]) {
        var k: nat :| LastStored(rows[..n], id, k) && ById(rows[..n])[id] == rows[..n][k];
        assert LastStored(rows, id, k);
      }
    }
  }

  // The key a row is stored with: its own, unless that is blank or masked; then that of the last
  // stored row with its id; for a list of one then the stored top-level key.
  lemma KeptKeyIs(id: string, raw: string, cur: Option<Current>, single: bool)
    ensures var key, own := KeptKey(id, raw, CurrentById(cur), cur, single), TrimSpace(raw);
      var stored := cur.Some? && exists k: nat :: LastStored(cur.value.targets, id, k) && TrimSpace(cur.value.targets[k].apiKey) != "";
      var top := single && cur.Some? && TrimSpace(cur.value.apiKey) != "";
      (own != "" && own != "***" ==> key == own) &&
      (own == "" || own == "***" ==>
        (stored ==> exists k: nat :: LastStored(cur.value.targets, id, k) && key == TrimSpace(cur.value.targets[k].apiKey)) &&
        (!stored && top ==> key == TrimSpace(cur.value.apiKey)) &&
        (!stored && !top ==> key == own))
  {
    hide TrimSpace, NormalId, ById;
    if cur.Some? {
      ByIdIsLast(cur.value.targets, id);
    }
  }

  // What a row needs: a valid id, an http or https URL that parses, and a real key.
  ghost predicate Acceptable(row: Row, cur: Option<Current>, single: bool, parses: string -> bool) {
    var id, u := TrimSpace(ToLower(row.id)), TrimSpace(row.url);
    var key := KeptKey(id, row.apiKey, CurrentById(cur), cur, single);
    NormalId(row.id).Some? && u != "" && parses(u) && WebAddress(u) && RealKey(key)
  }

  predicate RealKey(key: string) {
    key != "" && (|key| != 3 || exists i :: 0 <= i < 3 && key[i] != '*')
  }

  lemma RealKeyIs(key: string)
    ensures RealKey(key) <==> !MaskedKey(key)
  {
    var mask := "***";
    assert key == mask <==> |key| == 3 && key[0] == '*' && key[1] == '*' && key[2] == '*';
  }

  // It begins with http:// or https:// in any case.
  predicate WebAddress(u: string) {
    (|u| >= 7 && ToLower(u[..7]) == "http://") || (|u| >= 8 && ToLower(u[..8]) == "https://")
  }

  lemma HttpUrlIs(u: string)
    ensures HttpUrl(u) <==> WebAddress(u)
  {
    if |u| >= 7 { assert ToLower(u[..7]) == ToLower(u)[..7]; }
    if |u| >= 8 { assert ToLower(u[..8]) == ToLower(u)[..8]; }
  }

  ghost predicate AllAcceptable(rows: seq<Row>, cur: Option<Current>, single: bool, parses: string -> bool) {
    (forall i :: 0 <= i < |rows| ==> Acceptable(rows[i], cur, single, parses)) &&
    forall i, j :: 0 <= i < j < |rows| ==> NormalId(rows[i].id) != NormalId(rows[j].id)
  }

  ghost predicate StoredAs(row: Row, out: Row, cur: Option<Current>, single: bool) {
    out.id == TrimSpace(ToLower(row.id)) && out.name == TrimSpace(row.name) && out.url == TrimSpace(row.url) &&
    out.apiKey == KeptKey(out.id, row.apiKey, CurrentById(cur), cur, single) && out.skip == row.skip
  }

  lemma NormRowMeans(row: Row, seen: set<string>, cur: Option<Current>, single: bool, parses: string -> bool)
    ensures var r := NormRow(row, seen, CurrentById(cur), cur, single, parses);
      (r.Ok? <==> Acceptable(row, cur, single, parses) && TrimSpace(ToLower(row.id)) !in seen) &&
      (r.Ok? ==> StoredAs(row, r.value, cur, single) && r.value.isDefault == row.isDefault)
  {
    hide NormalId, TrimSpace, ToLower, KeptKey, CurrentById, HttpUrl, WebAddress, MaskedKey, RealKey;
    NormalIdIs(row.id);
    HttpUrlIs(TrimSpace(row.url));
    RealKeyIs(KeptKey(TrimSpace(ToLower(row.id)), row.apiKey, CurrentById(cur), cur, single));
  }

  lemma OneMoreAcceptable(rows: seq<Row>, n: nat, cur: Option<Current>, single: bool, parses: string -> bool)
    requires |rows| == n + 1
    ensures AllAcceptable(rows, cur, single, parses) <==>
      AllAcceptable(rows[..n], cur, single, parses) && Acceptable(rows[n], cur, single, parses) &&
      forall i :: 0 <= i < n ==> NormalId(rows[i].id) != NormalId(rows[n].id)
  {
    hide Acceptable, NormalId;
    assert forall i :: 0 <= i < n ==> rows[..n][i] == rows[i];
  }

  lemma SameId(row: Row, out: Row, cur: Option<Current>, single: bool, parses: string -> bool)
    requires Acceptable(row, cur, single, parses)
    ensures NormalId(row.id) == Some(TrimSpace(ToLower(row.id)))
    ensures StoredAs(row, out, cur, single) ==> NormalId(row.id) == Some(out.id)
  {
    hide TrimSpace, ToLower, KeptKey, ValidId;
  }

  ghost predicate AllStored(rows: seq<Row>, out: seq<Row>, cur: Option<Current>, single: bool) {
    |out| == |rows| && forall i :: 0 <= i < |rows| ==> StoredAs(rows[i], out[i], cur, single) && out[i].isDefault == rows[i].isDefault
  }

  lemma SameIds(rows: seq<Row>, done: seq<Row>, n: nat, cur: Option<Current>, single: bool, parses: string -> bool)
    requires n < |rows| && AllAcceptable(rows[..n], cur, single, parses) && AllStored(rows[..n], done, cur, single)
    ensures Acceptable(rows[n], cur, single, parses) ==>
      (TrimSpace(ToLower(rows[n].id)) !in Ids(done) <==> forall i :: 0 <= i < n ==> NormalId(rows[i].id) != NormalId(rows[n].id))
  {
    hide NormalId, TrimSpace, ToLower, Acceptable, StoredAs;
    if Acceptable(rows[n], cur, single, parses) {
      SameId(rows[n], rows[n], cur, single, parses);
      forall i | 0 <= i < n ensures NormalId(rows[i].id) == Some(done[i].id) && done[i] in done {
        assert rows[..n][i] == rows[i];
        SameId(rows[i], done[i], cur, single, parses);
      }
    }
  }

  lemma NothingToStore(cur: Option<Current>, single: bool, parses: string -> bool)
    ensures AllAcceptable([], cur, single, parses) && AllStored([], [], cur, single)
  {
  }

  lemma OneMoreStored(rows: seq<Row>, done: seq<Row>, out: Row, cur: Option<Current>, single: bool)
    requires rows != [] && AllStored(rows[..|rows| - 1], done, cur, single)
    requires StoredAs(rows[|rows| - 1], out, cur, single) && out.isDefault == rows[|rows| - 1].isDefault
    ensures AllStored(rows, done + [out], cur, single)
  {
    hide StoredAs;
    assert forall i :: 0 <= i < |rows| - 1 ==> rows[..|rows| - 1][i] == rows[i];
  }

  lemma {:induction false} NormRowsMean(rows: seq<Row>, cur: Option<Current>, single: bool, parses: string -> bool)
    ensures var r := NormRows(rows, CurrentById(cur), cur, single, parses);
      (r.Ok? <==> AllAcceptable(rows, cur, single, parses)) && (r.Ok? ==> AllStored(rows, r.value, cur, single))
  {
    hide NormRow, StoredAs, Acceptable, NormalId, TrimSpace, ToLower, CurrentById, AllAcceptable, AllStored, Ids;
    if rows == [] {
      NothingToStore(cur, single, parses);
    } else {
      var n := |rows| - 1;
      NormRowsMean(rows[..n], cur, single, parses);
      OneMoreAcceptable(rows, n, cur, single, parses);
      var before := NormRows(rows[..n], CurrentById(cur), cur, single, parses);
      if before.Ok? {
        NormRowMeans(rows[n], Ids(before.value), cur, single, parses);
        SameIds(rows, before.value, n, cur, single, parses);
        var last := NormRow(rows[n], Ids(before.value), CurrentById(cur), cur, single, parses);
        if last.Ok? { OneMoreStored(rows, before.value, last.value, cur, single); }
      }
    }
  }

  // A PUT is accepted exactly when every row is acceptable and no two share an id; each row is then
  // stored trimmed, in its place, and the first marked row, or else the first one, is the default.
  lemma PutMeans(rows: seq<Row>, cur: Option<Current>, parses: string -> bool)
    requires rows != []
    ensures var r := PutRows(rows, cur, parses);
      (r.Ok? <==> AllAcceptable(rows, cur, |rows| == 1, parses)) &&
      (r.Ok? ==> |r.value| == |rows| && forall i :: 0 <= i < |rows| ==>
        StoredAs(rows[i], r.value[i], cur, |rows| == 1) &&
        (r.value[i].isDefault <==>
          (rows[i].isDefault && forall m :: 0 <= m < i ==> !rows[m].isDefault) ||
          (i == 0 && forall m :: 0 <= m < |rows| ==> !rows[m].isDefault)))
  {
    hide NormRows, AllAcceptable, WebAddress, NormalId, TrimSpace, ToLower, KeptKey, CurrentById, FirstDefault;
    NormRowsMean(rows, cur, |rows| == 1, parses);
  }

  // ---------- merging into the process configuration ----------

  function ToEntry(r: Row): Entry {
    Entry(r.id, r.name, r.url, r.apiKey, r.skip, r.isDefault)
  }

  function Entries(rows: seq<Row>): seq<Entry> {
    seq(|rows|, i requires 0 <= i < |rows| => ToEntry(rows[i]))
  }

  // The entries built so far, and the ids met so far, those of skipped rows included.
  datatype Building = Building(seen: set<string>, built: seq<Entry>)

  function BuildStep(b: Building, row: Row): Building {
    match NormalId(row.id)
    case None => b
    case Some(id) =>
      var u, k := TrimSpace(row.url), TrimSpace(row.apiKey);
      if id in b.seen then b
      else if u == "" || k == "" then b.(seen := b.seen + {id})
      else Building(b.seen + {id}, b.built + [Entry(id, TrimSpace(row.name), u, k, row.skip, row.isDefault)])
  }

  function Build(rows: seq<Row>): Building {
    if rows == [] then Building({}, []) else BuildStep(Build(rows[..|rows| - 1]), rows[|rows| - 1])
  }

  function EntryDefaults(entries: seq<Entry>): nat {
    if entries == [] then 0
    else EntryDefaults(entries[..|entries| - 1]) + if entries[|entries| - 1].defaultForSync then 1 else 0
  }

  // Unless there is exactly one default, the first entry becomes the only one.
  function FixDefaults(entries: seq<Entry>): seq<Entry> {
    if EntryDefaults(entries) == 1 then entries
    else seq(|entries|, i requires 0 <= i < |entries| => entries[i].(defaultForSync := i == 0))
  }

  function FirstDefaultEntry(entries: seq<Entry>): Option<Entry> {
    if entries == [] then None
    else if entries[0].defaultForSync then Some(entries[0]) else FirstDefaultEntry(entries[1..])
  }

  // The configuration with its entries set, and its main fields taken from the default one.
  function Merged(rows: seq<Row>, skip: Option<bool>, cfg: Config, loadSkip: string -> bool): Config {
    var entries := FixDefaults(Build(rows).built);
    match FirstDefaultEntry(entries)
    case None => cfg.(targets := entries)
    case Some(t) =>
      Config(entries, TrimSpace(t.url), TrimSpace(t.apiKey),
        if t.skip.Some? then t.skip.value
        else if skip.Some? then skip.value
        else if TrimSpace(t.url) != "" then loadSkip(t.url) else cfg.skip)
  }

  method BuildEntries(rows: seq<Row>) returns (built: seq<Entry>)
    ensures built == Build(rows).built
  {
    hide NormalId, TrimSpace;
    var seen: set<string> := {};
    built := [];
    for i := 0 to |rows|
      invariant Build(rows[..i]) == Building(seen, built)
    {
      assert rows[..i + 1][..i] == rows[..i];
      var row := rows[i];
      var id := NormalId(row.id);
      if id.None? {
        continue;
      }
      if id.value in seen {
        continue;
      }
      seen := seen + {id.value};
      var u, k := TrimSpace(row.url), TrimSpace(row.apiKey);
      if u == "" || k == "" {
        continue;
      }
      built := built + [Entry(id.value, TrimSpace(row.name), u, k, row.skip, row.isDefault)];
    }
    assert rows[..|rows|] == rows;
  }

  method FixEntryDefaults(built: seq<Entry>) returns (fixed: seq<Entry>)
    ensures fixed == FixDefaults(built)
  {
    fixed := built;
    var defN := 0;
    for i := 0 to |built|
      invariant defN == EntryDefaults(built[..i])
    {
      assert built[..i + 1][..i] == built[..i];
      if built[i].defaultForSync {
        defN := defN + 1;
      }
    }
    assert built[..|built|] == built;
    if defN != 1 {
      for i := 0 to |fixed|
        invariant |fixed| == |built|
        invariant forall j :: 0 <= j < i ==> fixed[j] == built[j].(defaultForSync := j == 0)
        invariant forall j :: i <= j < |built| ==> fixed[j] == built[j]
      {
        fixed := fixed[i := fixed[i].(defaultForSync := i == 0)];
      }
    }
  }

  // mergeRuntimeBaotaTargetsIntoConfig; Config is a value, so the result is returned.
  method MergeIntoConfig(rs: RuntimeSettings?, cfg: Config, loadSkip: string -> bool) returns (out: Config)
    ensures out == if rs == null then cfg.(targets := []) else Merged(rs.targets, rs.skip, cfg, loadSkip)
  {
    hide BuildStep, TrimSpace, EntryDefaults;
    if rs == null || |rs.targets| == 0 {
      out := cfg.(targets := []);
      NothingMerged();
      return;
    }
    var built := BuildEntries(rs.targets);
    if |built| == 0 {
      out := cfg.(targets := []);
      return;
    }
    built := FixEntryDefaults(built);
    out := cfg.(targets := built);
    for i := 0 to |built|
      invariant out == cfg.(targets := built)
      invariant FirstDefaultEntry(built) == FirstDefaultEntry(built[i..])
    {
      var t := built[i];
      assert built[i..][1..] == built[i + 1..];
      if t.defaultForSync {
        out := out.(url := TrimSpace(t.url), apiKey := TrimSpace(t.apiKey));
        if t.skip.Some? {
          out := out.(skip := t.skip.value);
        } else if rs.skip.Some? {
          out := out.(skip := rs.skip.value);
        } else if TrimSpace(t.url) != "" {
          out := out.(skip := loadSkip(t.url));
        }
        return;
      }
    }
  }

  lemma NothingMerged()
    ensures FixDefaults(Build([]).built) == []
  {
  }

  // ---------- the two normalisers agree ----------

  lemma NormalRowIsBuilt(b: Building, row: Row, parses: string -> bool)
    requires NormalRow(row, parses) && row.id !in b.seen
    ensures BuildStep(b, row) == Building(b.seen + {row.id}, b.built + [ToEntry(row)])
  {
    hide ValidId, HttpUrl, NormalId;
    ValidIdIsNormal(row.id);
  }

  lemma {:induction false} NormalRowsAreBuilt(rows: seq<Row>, parses: string -> bool)
    requires DistinctIds(rows) && forall i :: 0 <= i < |rows| ==> NormalRow(rows[i], parses)
    ensures Build(rows) == Building(Ids(rows), Entries(rows))
    ensures EntryDefaults(Entries(rows)) == DefaultCount(rows)
  {
    hide NormalRow, BuildStep;
    if rows != [] {
      var n := |rows| - 1;
      var init := rows[..n];
      NormalRowsAreBuilt(init, parses);
      forall r | r in init ensures r.id != rows[n].id {
        var i :| 0 <= i < n && init[i] == r;
      }
      NormalRowIsBuilt(Build(init), rows[n], parses);
      IdsSnoc(init, rows[n]);
      assert init + [rows[n]] == rows;
      assert Entries(rows) == Entries(init) + [ToEntry(rows[n])];
    }
  }

  lemma {:induction false} FirstEntryIs(entries: seq<Entry>, k: nat)
    requires k < |entries| && entries[k].defaultForSync && forall i :: 0 <= i < k ==> !entries[i].defaultForSync
    ensures FirstDefaultEntry(entries) == Some(entries[k])
  {
    if k > 0 {
      FirstEntryIs(entries[1..], k - 1);
    }
  }

  // A saved list reaches the configuration with the same rows in the same order and the same
  // default, whose URL and key become the main ones.
  lemma MergeKeepsSavedList(rows: seq<Row>, skip: Option<bool>, cfg: Config, loadSkip: string -> bool, parses: string -> bool)
    requires rows != [] && Normalised(rows, parses)
    ensures
      var out := Merged(rows, skip, cfg, loadSkip);
      out.targets == Entries(rows) && out.url == DefaultRow(rows).url && out.apiKey == DefaultRow(rows).apiKey
  {
    hide Build, EntryDefaults, DefaultCount, ValidId, HttpUrl;
    NormalRowsAreBuilt(rows, parses);
    var k: nat :| OnlyDefault(rows, k);
    DefaultKept(rows, k);
    DefaultCountMeans(rows);
    assert rows[k].isDefault && rows[k] in rows;
    FirstEntryIs(Entries(rows), k);
  }

  // The row the merge makes the default.
  function MergeDefault(rows: seq<Row>): (k: nat)
    requires rows != []
    ensures k < |rows|
  {
    if DefaultCount(rows) == 1 then FirstDefault(rows) else 0
  }

  lemma SingleDefaultStays(rows: seq<Row>)
    requires rows != [] && DefaultCount(rows) == 1
    ensures WithDefault(rows, FirstDefault(rows)) == rows
  {
    hide DefaultCount;
    DefaultCountMeans(rows);
    assert forall i :: 0 <= i < |rows| ==> rows[i] in rows;
  }

  lemma MergedRows(rows: seq<Row>, parses: string -> bool)
    requires rows != [] && DistinctIds(rows) && forall i :: 0 <= i < |rows| ==> NormalRow(rows[i], parses)
    ensures FixDefaults(Build(rows).built) == Entries(WithDefault(rows, MergeDefault(rows)))
  {
    hide Build, EntryDefaults, DefaultCount, NormalRow, FirstDefault;
    NormalRowsAreBuilt(rows, parses);
    if DefaultCount(rows) == 1 {
      SingleDefaultStays(rows);
    } else {
      var fixed := FixDefaults(Entries(rows));
      var other := Entries(WithDefault(rows, 0));
      assert |fixed| == |other|;
      assert forall i :: 0 <= i < |rows| ==> fixed[i] == other[i];
    }
  }

  lemma SameDefaultIff(rows: seq<Row>)
    requires rows != []
    ensures MergeDefault(rows) == FirstDefault(rows) <==> DefaultCount(rows) <= 1 || rows[0].isDefault
  {
    hide DefaultCount;
    DefaultCountMeans(rows);
    assert rows[0] in rows && rows[FirstDefault(rows)] in rows;
  }

  lemma DefaultsDiffer(rows: seq<Row>, j: nat, k: nat)
    requires j < |rows| && k < |rows|
    ensures Entries(WithDefault(rows, j)) == Entries(WithDefault(rows, k)) <==> j == k
  {
    assert Entries(WithDefault(rows, j))[j].defaultForSync;
    assert Entries(WithDefault(rows, k))[j].defaultForSync <==> j == k;
  }

  // The two functions repair the defaults of a raw list differently: the PUT keeps the first
  // default, the merge falls back to the first row.  They choose the same row exactly when at most
  // one row is marked or the first row is.
  lemma RepairsAgreeIff(rows: seq<Row>, skip: Option<bool>, cfg: Config, loadSkip: string -> bool, cur: Option<Current>, parses: string -> bool)
    requires rows != [] && DistinctIds(rows) && forall i :: 0 <= i < |rows| ==> NormalRow(rows[i], parses)
    ensures PutRows(rows, cur, parses) == Ok(WithDefault(rows, FirstDefault(rows)))
    ensures Merged(rows, skip, cfg, loadSkip).targets == Entries(WithDefault(rows, FirstDefault(rows)))
       <==> DefaultCount(rows) <= 1 || rows[0].isDefault
  {
    hide Build, DefaultCount, NormalRow, NormRows, TrimSpace, FixDefaults, WithDefault, Entries, FirstDefault, MergeDefault;
    NormalRowsAreKept(rows, rows, CurrentById(cur), cur, |rows| == 1, parses);
    MergedRows(rows, parses);
    SameDefaultIff(rows);
    DefaultsDiffer(rows, MergeDefault(rows), FirstDefault(rows));
  }

  // What a row adds to the entries: itself, trimmed and under its normal id, unless the id is not
  // valid, an earlier row has it, or URL or key are missing.
  lemma MergeOneMoreRow(rows: seq<Row>, row: Row)
    ensures var before, after := Build(rows).built, Build(rows + [row]).built;
      if NormalId(row.id).Some? && TrimSpace(row.url) != "" && TrimSpace(row.apiKey) != "" &&
        forall r :: r in rows ==> NormalId(r.id) != NormalId(row.id)
      then after == before + [Entry(TrimSpace(ToLower(row.id)), TrimSpace(row.name), TrimSpace(row.url), TrimSpace(row.apiKey), row.skip, row.isDefault)]
      else after == before
  {
    assert NormalId(row.id).Some? ==> NormalId(row.id).value == TrimSpace(ToLower(row.id));
    hide NormalId, TrimSpace;
    assert (rows + [row])[..|rows|] == rows;
    SeenIds(rows);
  }

  lemma {:induction false} SeenIds(rows: seq<Row>)
    ensures forall id :: id in Build(rows).seen <==> exists r :: r in rows && NormalId(r.id) == Some(id)
  {
    hide NormalId, TrimSpace;
    if rows != [] {
      var front, last := rows[..|rows| - 1], rows[|rows| - 1];
      SeenIds(front);
      assert rows == front + [last];
    }
  }

  // After a merge exactly one entry is the default: the marked one if exactly one was, and otherwise
  // the first. Everything else of the entries stays.
  lemma MergedHasOneDefault(entries: seq<Entry>, k: nat)
    requires k < |entries|
    requires EntryDefaults(entries) == 1 ==> entries[k].defaultForSync
    requires EntryDefaults(entries) != 1 ==> k == 0
    ensures var fixed := FixDefaults(entries);
      |fixed| == |entries| && forall i :: 0 <= i < |fixed| ==> fixed[i] == entries[i].(defaultForSync := i == k)
  {
    hide EntryDefaults;
    if EntryDefaults(entries) == 1 {
      forall i | 0 <= i < |entries| && i != k ensures !entries[i].defaultForSync {
        if entries[i].defaultForSync { TwoDefaults(entries, if i < k then i else k, if i < k then k else i); }
      }
    }
  }

  lemma {:induction false} TwoDefaults(entries: seq<Entry>, i: nat, j: nat)
    requires i < j < |entries| && entries[i].defaultForSync && entries[j].defaultForSync
    ensures EntryDefaults(entries) >= 2
  {
    var n := |entries| - 1;
    if j < n {
      TwoDefaults(entries[..n], i, j);
    } else {
      OneDefaultEntry(entries[..n], i);
    }
  }

  lemma {:induction false} OneDefaultEntry(entries: seq<Entry>, i: nat)
    requires i < |entries| && entries[i].defaultForSync
    ensures EntryDefaults(entries) >= 1
  {
    if i < |entries| - 1 { OneDefaultEntry(entries[..|entries| - 1], i); }
  }

  // The main fields follow the default entry, k. Its own TLS flag wins, then the stored top-level one,
  // then the one kept for its URL. Without entries they stay as they were.
  lemma MergedFollowsDefault(rows: seq<Row>, skip: Option<bool>, cfg: Config, loadSkip: string -> bool, k: nat)
    requires Build(rows).built == [] || (k < |Build(rows).built| && FixDefaults(Build(rows).built)[k].defaultForSync)
    ensures var out, entries := Merged(rows, skip, cfg, loadSkip), FixDefaults(Build(rows).built);
      out.targets == entries &&
      (entries == [] ==> out.url == cfg.url && out.apiKey == cfg.apiKey && out.skip == cfg.skip) &&
      (entries != [] ==>
        out.url == TrimSpace(entries[k].url) && out.apiKey == TrimSpace(entries[k].apiKey) &&
        (entries[k].skip.Some? ==> out.skip == entries[k].skip.value) &&
        (entries[k].skip.None? && skip.Some? ==> out.skip == skip.value) &&
        (entries[k].skip.None? && skip.None? && TrimSpace(entries[k].url) != "" ==> out.skip == loadSkip(entries[k].url)))
  {
    hide Build, EntryDefaults, TrimSpace;
    var built := Build(rows).built;
    if built != [] {
      var d := SomeDefault(built);
      MergedHasOneDefault(built, d);
      FirstEntryIs(FixDefaults(built), d);
    }
  }

  lemma {:induction false} SomeDefault(entries: seq<Entry>) returns (k: nat)
    requires entries != []
    ensures k < |entries|
    ensures EntryDefaults(entries) == 1 ==> entries[k].defaultForSync
    ensures EntryDefaults(entries) != 1 ==> k == 0
  {
    k := 0;
    if EntryDefaults(entries) == 1 {
      var n := |entries| - 1;
      if entries[n].defaultForSync {
        k := n;
      } else {
        assert n == 0 ==> EntryDefaults(entries[..n]) == 0;
        k := SomeDefault(entries[..n]);
      }
    }
  }

  // ---------- choosing an instance ----------

  predicate Usable(t: Entry) { !Blank(t.url) && !Blank(t.apiKey) }

  function UsableOf(targets: seq<Entry>): seq<Entry> {
    if targets == [] then []
    else
      var last := targets[|targets| - 1];
      UsableOf(targets[..|targets| - 1]) + if Usable(last) then [last] else []
  }

  function Effective(cfg: Config): seq<Entry> {
    var usable := UsableOf(cfg.targets);
    var u, k := TrimSpace(cfg.url), TrimSpace(cfg.apiKey);
    if usable != [] then usable
    else if u != "" && k != "" then [Entry("default", "默认", u, k, None, true)]
    else []
  }

  method EffectiveBaotaTargets(cfg: Config) returns (list: seq<Entry>)
    ensures list == Effective(cfg)
  {
    hide TrimSpace;
    if |cfg.targets| > 0 {
      var out: seq<Entry> := [];
      for i := 0 to |cfg.targets|
        invariant out == UsableOf(cfg.targets[..i])
      {
        assert cfg.targets[..i + 1][..i] == cfg.targets[..i];
        var t := cfg.targets[i];
        if TrimSpace(t.url) == "" || TrimSpace(t.apiKey) == "" {
          continue;
        }
        out := out + [t];
      }
      assert cfg.targets[..|cfg.targets|] == cfg.targets;
      if |out| > 0 {
        return out;
      }
    }
    var u, k := TrimSpace(cfg.url), TrimSpace(cfg.apiKey);
    if u != "" && k != "" {
      return [Entry("default", "默认", u, k, None, true)];
    }
    return [];
  }

  function DefaultTargetId(cfg: Config): string {
    var list := Effective(cfg);
    if list == [] then "default"
    else
      match FirstDefaultEntry(list)
      case Some(t) => t.id
      case None => list[0].id
  }

  function FindId(list: seq<Entry>, id: string): Option<Entry> {
    if list == [] then None else if list[0].id == id then Some(list[0]) else FindId(list[1..], id)
  }

  function Connect(cfg: Config, t: Entry): Config {
    Config([], TrimSpace(t.url), TrimSpace(t.apiKey), if t.skip.Some? then t.skip.value else cfg.skip)
  }

  function ConfigForTargetId(cfg: Config, targetId: string): Config {
    var out := cfg.(targets := []);
    var id := if Blank(targetId) then DefaultTargetId(cfg) else TrimSpace(targetId);
    match FindId(Effective(cfg), id)
    case Some(t) => Connect(cfg, t)
    case None =>
      var def := DefaultTargetId(cfg);
      if def == id then out
      else
        match FindId(Effective(cfg), def)
        case Some(t) => Connect(cfg, t)
        case None => out
  }

  lemma {:induction false} FindIdFinds(list: seq<Entry>, id: string)
    ensures FindId(list, id).Some? <==> exists t :: t in list && t.id == id
    ensures FindId(list, id).Some? ==> FindId(list, id).value in list && FindId(list, id).value.id == id
  {
    if list != [] {
      FindIdFinds(list[1..], id);
      assert list == [list[0]] + list[1..];
    }
  }

  lemma {:induction false} FirstDefaultEntryFinds(list: seq<Entry>)
    ensures FirstDefaultEntry(list).Some? ==> FirstDefaultEntry(list).value in list && FirstDefaultEntry(list).value.defaultForSync
    ensures FirstDefaultEntry(list).None? <==> forall t :: t in list ==> !t.defaultForSync
  {
    if list != [] {
      FirstDefaultEntryFinds(list[1..]);
      assert list == [list[0]] + list[1..];
    }
  }

  lemma {:induction false} UsableAppend(a: seq<Entry>, b: seq<Entry>)
    ensures UsableOf(a + b) == UsableOf(a) + UsableOf(b)
  {
    hide Usable;
    if b == [] {
      assert a + b == a;
    } else {
      UsableAppend(a, b[..|b| - 1]);
      assert (a + b)[..|a + b| - 1] == a + b[..|b| - 1];
    }
  }

  lemma UsableOne(t: Entry)
    ensures UsableOf([t]) == if TrimSpace(t.url) != "" && TrimSpace(t.apiKey) != "" then [t] else []
  {
    hide TrimSpace;
    assert [t][..0] == [];
  }

  // The instances to choose from: the entries with a URL and a key, in order; without any, the
  // top-level URL and key, if both are there, under the id default.
  lemma EffectiveIs(cfg: Config)
    ensures (exists t :: t in cfg.targets && TrimSpace(t.url) != "" && TrimSpace(t.apiKey) != "") ==>
      Effective(cfg) == UsableOf(cfg.targets)
    ensures (forall t :: t in cfg.targets ==> TrimSpace(t.url) == "" || TrimSpace(t.apiKey) == "") ==>
      (TrimSpace(cfg.url) == "" || TrimSpace(cfg.apiKey) == "" ==> Effective(cfg) == []) &&
      (TrimSpace(cfg.url) != "" && TrimSpace(cfg.apiKey) != "" ==>
        |Effective(cfg)| == 1 && var t := Effective(cfg)[0];
          t.id == "default" && t.url == TrimSpace(cfg.url) && t.apiKey == TrimSpace(cfg.apiKey) && t.skip.None? && t.defaultForSync)
  {
    hide TrimSpace;
    UsableMembers(cfg.targets);
    assert UsableOf(cfg.targets) != [] ==> UsableOf(cfg.targets)[0] in UsableOf(cfg.targets);
  }

  lemma {:induction false} UsableMembers(targets: seq<Entry>)
    ensures forall t :: t in UsableOf(targets) <==> t in targets && TrimSpace(t.url) != "" && TrimSpace(t.apiKey) != ""
  {
    hide TrimSpace;
    if targets != [] {
      UsableMembers(targets[..|targets| - 1]);
      assert targets == targets[..|targets| - 1] + [targets[|targets| - 1]];
    }
  }

  // Entry k is the first one with this id.
  ghost predicate FirstWithId(list: seq<Entry>, id: string, k: nat) {
    k < |list| && list[k].id == id && forall m :: 0 <= m < k ==> list[m].id != id
  }

  lemma {:induction false} FindIdIsFirst(list: seq<Entry>, id: string)
    ensures FindId(list, id).None? <==> forall t :: t in list ==> t.id != id
    ensures FindId(list, id).Some? ==> exists k: nat :: FirstWithId(list, id, k) && FindId(list, id).value == list[k]
  {
    if list != [] && list[0].id != id {
      FindIdIsFirst(list[1..], id);
      if FindId(list[1..], id).Some? {
        var k: nat :| FirstWithId(list[1..], id, k) && FindId(list[1..], id).value == list[1..][k];
        assert FirstWithId(list, id, k + 1);
      }
    } else if list != [] {
      assert FirstWithId(list, id, 0);
    }
  }

  lemma {:induction false} FirstDefaultEntryIs(list: seq<Entry>, k: nat)
    requires k <= |list| && forall m :: 0 <= m < k ==> !list[m].defaultForSync
    requires k < |list| ==> list[k].defaultForSync
    ensures FirstDefaultEntry(list) == if k < |list| then Some(list[k]) else None
  {
    if k > 0 { FirstDefaultEntryIs(list[1..], k - 1); }
  }

  // The default id is that of the first marked entry, k, or of the first entry when none is marked.
  lemma DefaultIdIs(cfg: Config, k: nat)
    requires k <= |Effective(cfg)| && forall m :: 0 <= m < k ==> !Effective(cfg)[m].defaultForSync
    requires k < |Effective(cfg)| ==> Effective(cfg)[k].defaultForSync
    ensures DefaultTargetId(cfg) ==
      if Effective(cfg) == [] then "default" else if k < |Effective(cfg)| then Effective(cfg)[k].id else Effective(cfg)[0].id
  {
    hide Effective;
    FirstDefaultEntryIs(Effective(cfg), k);
  }

  // The default id names an effective instance, a default one if there is any.
  lemma DefaultIdIsEffective(cfg: Config)
    requires Effective(cfg) != []
    ensures exists t :: t in Effective(cfg) && t.id == DefaultTargetId(cfg) &&
              (t.defaultForSync || forall e :: e in Effective(cfg) ==> !e.defaultForSync)
  {
    hide Effective;
    var list := Effective(cfg);
    FirstDefaultEntryFinds(list);
    assert list[0] in list;
  }

  // With any instance to choose from, URL and key come from one and the same entry: the requested
  // one if its id is known, and a default one otherwise. Without any nothing is replaced.
  lemma SelectionNeverMixes(cfg: Config, targetId: string)
    ensures
      var list, out := Effective(cfg), ConfigForTargetId(cfg, targetId);
      var id := if TrimSpace(targetId) == "" then DefaultTargetId(cfg) else TrimSpace(targetId);
      out.targets == [] &&
      (list == [] ==> out.url == cfg.url && out.apiKey == cfg.apiKey && out.skip == cfg.skip) &&
      (list != [] ==> exists k: nat ::
        FirstWithId(list, if exists e :: e in list && e.id == id then id else DefaultTargetId(cfg), k) &&
        out.url == TrimSpace(list[k].url) && out.apiKey == TrimSpace(list[k].apiKey) &&
        out.skip == if list[k].skip.Some? then list[k].skip.value else cfg.skip)
  {
    hide Effective, TrimSpace, DefaultTargetId;
    var list := Effective(cfg);
    var id := if Blank(targetId) then DefaultTargetId(cfg) else TrimSpace(targetId);
    FindIdIsFirst(list, id);
    FindIdIsFirst(list, DefaultTargetId(cfg));
    if list != [] { DefaultIdIsEffective(cfg); }
  }
}
