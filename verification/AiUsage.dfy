/** Token usage statistics of model calls and the budget alert (internal/ai_usage.go). */
module AiUsage {
  // One model call; `date` is the day it was made on, as a day number.
  datatype Call = Call(date: nat, feature: string, model: string, prompt: int, completion: int, latencyMs: int, ok: bool)

  datatype Agg = Agg(calls: int, prompt: int, completion: int, total: int, errors: int)

  const ZERO := Agg(0, 0, 0, 0, 0)
  const MAX_RECENT := 200

  function Add(a: Agg, b: Agg): Agg {
    Agg(a.calls + b.calls, a.prompt + b.prompt, a.completion + b.completion, a.total + b.total, a.errors + b.errors)
  }

  function Of(c: Call): Agg {
    Agg(1, c.prompt, c.completion, c.prompt + c.completion, if c.ok then 0 else 1)
  }

  datatype Key = Key(date: nat, model: string, feature: string)

  function KeyOf(c: Call): Key { Key(c.date, c.model, c.feature) }

  // date -> model -> feature
  type Daily = map<nat, map<string, map<string, Agg>>>

  predicate HasCell(daily: Daily, k: Key) {
    k.date in daily && k.model in daily[k.date] && k.feature in daily[k.date][k.model]
  }

  function Cell(daily: Daily, k: Key): Agg {
    if HasCell(daily, k) then daily[k.date][k.model][k.feature] else ZERO
  }

  // ---------- the reference: folding over the calls themselves ----------

  function Fold(log: seq<Call>, p: Call -> bool): Agg {
    if log == [] then ZERO
    else
      var last := log[|log| - 1];
      Add(Fold(log[..|log| - 1], p), if p(last) then Of(last) else ZERO)
  }

  lemma {:induction false} FoldSame(log: seq<Call>, p: Call -> bool, q: Call -> bool)
    requires forall c :: c in log ==> p(c) == q(c)
    ensures Fold(log, p) == Fold(log, q)
  {
    if log != [] {
      assert log[|log| - 1] in log;
      FoldSame(log[..|log| - 1], p, q);
    }
  }

  // A disjunction of exclusive conditions folds to the sum.
  lemma {:induction false} FoldSplit(log: seq<Call>, p: Call -> bool, q: Call -> bool, both: Call -> bool)
    requires forall c :: c in log ==> (both(c) <==> p(c) || q(c)) && !(p(c) && q(c))
    ensures Fold(log, both) == Add(Fold(log, p), Fold(log, q))
  {
    hide Add, Of;
    AddZero(ZERO);
    if log != [] {
      var init, last := log[..|log| - 1], log[|log| - 1];
      assert last in log && forall c :: c in init ==> c in log;
      FoldSplit(init, p, q, both);
      AddSwap(Fold(init, p), Fold(init, q), Of(last));
      AddZero(Fold(init, p));
      AddZero(Fold(init, q));
      AddZero(Fold(init, both));
    }
  }

  lemma AddZero(a: Agg)
    ensures Add(a, ZERO) == a && Add(ZERO, a) == a
  {
  }

  lemma AddSwap(a: Agg, b: Agg, v: Agg)
    ensures Add(Add(a, b), v) == Add(Add(a, v), b) == Add(a, Add(b, v))
  {
  }

  lemma {:induction false} FoldNone(log: seq<Call>, p: Call -> bool)
    requires forall c :: c in log ==> !p(c)
    ensures Fold(log, p) == ZERO
  {
    if log != [] {
      assert log[|log| - 1] in log;
      FoldNone(log[..|log| - 1], p);
    }
  }

  // ---------- recording ----------

  function Models(daily: Daily, k: Key): map<string, map<string, Agg>> {
    if k.date in daily then daily[k.date] else map[]
  }

  function Features(daily: Daily, k: Key): map<string, Agg> {
    if k.model in Models(daily, k) then Models(daily, k)[k.model] else map[]
  }

  function Put(daily: Daily, k: Key, agg: Agg): Daily {
    daily[k.date := Models(daily, k)[k.model := Features(daily, k)[k.feature := agg]]]
  }

  function Record(daily: Daily, c: Call): Daily {
    Put(daily, KeyOf(c), Add(Cell(daily, KeyOf(c)), Of(c)))
  }

  lemma PutTwice(daily: Daily, k: Key, a: Agg, b: Agg)
    ensures Put(Put(daily, k, a), k, b) == Put(daily, k, b)
  {
    var d := Put(daily, k, a);
    assert Features(d, k)[k.feature := b] == Features(daily, k)[k.feature := b];
    var f := Features(daily, k)[k.feature := b];
    assert Models(d, k)[k.model := f] == Models(daily, k)[k.model := f];
  }

  function LastRecent(calls: seq<Call>): seq<Call> {
    if |calls| > MAX_RECENT then calls[|calls| - MAX_RECENT..] else calls
  }

  // checkAIUsageBudget: the cell's total passes the budget with this call
  predicate Crosses(budget: int, now: int, before: int) {
    !(budget <= 0 || now < budget || before >= budget)
  }

  class UsageStore {
    var daily: Daily
    var recent: seq<Call>

    constructor ()
      ensures daily == map[] && recent == []
    {
      daily, recent := map[], [];
    }

    // The levels of the cell that are missing are created empty.
    method EnsureCell(k: Key)
      modifies this`daily
      ensures HasCell(daily, k)
      ensures daily == if HasCell(old(daily), k) then old(daily) else Put(old(daily), k, ZERO)
    {
      ghost var start, models, features := daily, Models(daily, k), Features(daily, k);
      if k.date !in daily {
        daily := daily[k.date := map[]];
      }
      assert daily == start[k.date := models] || (k.date in start && daily == start);
      assert daily[k.date] == models;
      if k.model !in daily[k.date] {
        daily := daily[k.date := daily[k.date][k.model := map[]]];
      }
      assert daily[k.date][k.model] == features;
      ghost var cells := features[k.feature := ZERO];
      assert daily[k.date][k.model := cells] == models[k.model := cells];
      if k.feature !in daily[k.date][k.model] {
        daily := daily[k.date := daily[k.date][k.model := daily[k.date][k.model][k.feature := ZERO]]];
      }
    }

    method StoreAgg(k: Key, agg: Agg)
      requires HasCell(daily, k)
      modifies this`daily
      ensures daily == Put(old(daily), k, agg)
    {
      daily := daily[k.date := daily[k.date][k.model := daily[k.date][k.model][k.feature := agg]]];
    }

    method RecordCall(c: Call, budget: int) returns (alert: bool)
      modifies this
      ensures daily == Record(old(daily), c)
      ensures recent == LastRecent(old(recent) + [c])
      ensures alert == Crosses(budget, Cell(daily, KeyOf(c)).total, Cell(old(daily), KeyOf(c)).total)
    {
      EnsureCell(KeyOf(c));
      var agg := daily[c.date][c.model][c.feature];
      agg := agg.(calls := agg.calls + 1);
      agg := agg.(prompt := agg.prompt + c.prompt);
      agg := agg.(completion := agg.completion + c.completion);
      agg := agg.(total := agg.total + c.prompt + c.completion);
      if !c.ok {
        agg := agg.(errors := agg.errors + 1);
      }
      assert agg == Add(Cell(old(daily), KeyOf(c)), Of(c));
      hide Add, Of, Cell, Put;
      StoreAgg(KeyOf(c), agg);
      PutTwice(old(daily), KeyOf(c), ZERO, agg);
      recent := recent + [c];
      if |recent| > MAX_RECENT {
        recent := recent[|recent| - MAX_RECENT..];
      }
      var todayTokens, prevTokens := agg.total, agg.total - c.prompt - c.completion;
      alert := !(budget <= 0 || todayTokens < budget || prevTokens >= budget);
    }
  }

  // The statistics after a sequence of calls, starting from nothing.
  function DailyAfter(log: seq<Call>): Daily {
    if log == [] then map[] else Record(DailyAfter(log[..|log| - 1]), log[|log| - 1])
  }

  function RecentAfter(log: seq<Call>): seq<Call> {
    if log == [] then [] else LastRecent(RecentAfter(log[..|log| - 1]) + [log[|log| - 1]])
  }

  predicate In(c: Call, k: Key) { KeyOf(c) == k }

  function CellFold(log: seq<Call>, k: Key): Agg { Fold(log, c => In(c, k)) }

  // Every cell is the fold over its own calls, and exists exactly when there is such a call.
  ghost predicate Represents(daily: Daily, log: seq<Call>) {
    (forall k :: Cell(daily, k) == CellFold(log, k)) &&
    (forall k :: HasCell(daily, k) <==> exists c :: c in log && In(c, k))
  }

  lemma RecordCells(daily: Daily, c: Call, k: Key)
    ensures Cell(Record(daily, c), k) == if In(c, k) then Add(Cell(daily, k), Of(c)) else Cell(daily, k)
    ensures HasCell(Record(daily, c), k) <==> HasCell(daily, k) || In(c, k)
  {
  }

  lemma {:induction false} CellIsFold(log: seq<Call>, k: Key)
    ensures Cell(DailyAfter(log), k) == CellFold(log, k)
    ensures HasCell(DailyAfter(log), k) <==> exists c :: c in log && In(c, k)
  {
    hide Record, Add, Of;
    if log != [] {
      var init, last := log[..|log| - 1], log[|log| - 1];
      CellIsFold(init, k);
      assert log == init + [last];
      RecordCells(DailyAfter(init), last, k);
      AddZero(Cell(DailyAfter(init), k));
    }
  }

  lemma CellsAreFolds(log: seq<Call>)
    ensures Represents(DailyAfter(log), log)
  {
    hide Cell, HasCell, CellFold, DailyAfter, In;
    forall k
      ensures Cell(DailyAfter(log), k) == CellFold(log, k)
      ensures HasCell(DailyAfter(log), k) <==> exists c :: c in log && In(c, k)
    {
      CellIsFold(log, k);
    }
  }

  // The recent list is the last 200 calls, in order.
  lemma {:induction false} RecentIsSuffix(log: seq<Call>)
    ensures RecentAfter(log) == if |log| > 200 then log[|log| - 200..] else log
  {
    if log != [] {
      var init := log[..|log| - 1];
      RecentIsSuffix(init);
      assert log == init + [log[|log| - 1]];
    }
  }

  // ---------- windows of days ----------

  datatype Sums = Sums(tot: Agg, byModel: map<string, Agg>, byFeature: map<string, Agg>)

  predicate Since(c: Call, cutoff: int) { c.date >= cutoff }

  function SumFold(log: seq<Call>, cells: set<Key>): Agg { Fold(log, c => KeyOf(c) in cells) }

  function ModelFold(log: seq<Call>, cells: set<Key>, m: string): Agg { Fold(log, c => KeyOf(c) in cells && c.model == m) }

  function FeatureFold(log: seq<Call>, cells: set<Key>, f: string): Agg { Fold(log, c => KeyOf(c) in cells && c.feature == f) }

  // The three aggregates cover exactly these cells.
  ghost predicate Covers(s: Sums, log: seq<Call>, cells: set<Key>) {
    s.tot == SumFold(log, cells) &&
    (forall m :: m in s.byModel <==> exists k :: k in cells && k.model == m) &&
    (forall m :: m in s.byModel ==> s.byModel[m] == ModelFold(log, cells, m)) &&
    (forall f :: f in s.byFeature <==> exists k :: k in cells && k.feature == f) &&
    (forall f :: f in s.byFeature ==> s.byFeature[f] == FeatureFold(log, cells, f))
  }

  function AddTo(m: map<string, Agg>, name: string, agg: Agg): map<string, Agg> {
    m[name := Add(if name in m then m[name] else ZERO, agg)]
  }

  function AddCell(s: Sums, k: Key, agg: Agg): Sums {
    Sums(Add(s.tot, agg), AddTo(s.byModel, k.model, agg), AddTo(s.byFeature, k.feature, agg))
  }

  lemma GroupGrows(log: seq<Call>, cells: set<Key>, k: Key)
    requires k !in cells
    ensures SumFold(log, cells + {k}) == Add(SumFold(log, cells), CellFold(log, k))
    ensures forall m :: ModelFold(log, cells + {k}, m) ==
              if m == k.model then Add(ModelFold(log, cells, m), CellFold(log, k)) else ModelFold(log, cells, m)
    ensures forall f :: FeatureFold(log, cells + {k}, f) ==
              if f == k.feature then Add(FeatureFold(log, cells, f), CellFold(log, k)) else FeatureFold(log, cells, f)
  {
    hide Fold, Add;
    var more := cells + {k};
    FoldSplit(log, c => KeyOf(c) in cells, c => In(c, k), c => KeyOf(c) in more);
    forall m
      ensures ModelFold(log, more, m) ==
        if m == k.model then Add(ModelFold(log, cells, m), CellFold(log, k)) else ModelFold(log, cells, m)
    {
      if m == k.model {
        FoldSplit(log, c => KeyOf(c) in cells && c.model == m, c => In(c, k), c => KeyOf(c) in more && c.model == m);
      } else {
        FoldSame(log, c => KeyOf(c) in cells && c.model == m, c => KeyOf(c) in more && c.model == m);
      }
    }
    forall f
      ensures FeatureFold(log, more, f) ==
        if f == k.feature then Add(FeatureFold(log, cells, f), CellFold(log, k)) else FeatureFold(log, cells, f)
    {
      if f == k.feature {
        FoldSplit(log, c => KeyOf(c) in cells && c.feature == f, c => In(c, k), c => KeyOf(c) in more && c.feature == f);
      } else {
        FoldSame(log, c => KeyOf(c) in cells && c.feature == f, c => KeyOf(c) in more && c.feature == f);
      }
    }
  }

  lemma NoModelYet(log: seq<Call>, cells: set<Key>, k: Key)
    ensures (forall j :: j in cells ==> j.model != k.model) ==> ModelFold(log, cells, k.model) == ZERO
    ensures (forall j :: j in cells ==> j.feature != k.feature) ==> FeatureFold(log, cells, k.feature) == ZERO
  {
    if forall j :: j in cells ==> j.model != k.model {
      FoldNone(log, c => KeyOf(c) in cells && c.model == k.model);
    }
    if forall j :: j in cells ==> j.feature != k.feature {
      FoldNone(log, c => KeyOf(c) in cells && c.feature == k.feature);
    }
  }

  lemma AddCellCovers(s: Sums, log: seq<Call>, cells: set<Key>, k: Key)
    requires Covers(s, log, cells) && k !in cells
    ensures Covers(AddCell(s, k, CellFold(log, k)), log, cells + {k})
  {
    hide SumFold, ModelFold, FeatureFold, CellFold, Add;
    GroupGrows(log, cells, k);
    NoModelYet(log, cells, k);
    var s' := AddCell(s, k, CellFold(log, k));
    assert k in cells + {k};
    forall m ensures m in s'.byModel <==> exists j :: j in cells + {k} && j.model == m {
      if m in s.byModel {
        var j :| j in cells && j.model == m;
        assert j in cells + {k};
      }
    }
    forall f ensures f in s'.byFeature <==> exists j :: j in cells + {k} && j.feature == f {
      if f in s.byFeature {
        var j :| j in cells && j.feature == f;
        assert j in cells + {k};
      }
    }
  }

  lemma NothingCovered(log: seq<Call>)
    ensures Covers(Sums(ZERO, map[], map[]), log, {})
  {
    var none: set<Key> := {};
    FoldNone(log, c => KeyOf(c) in none);
  }

  ghost predicate CellsAre(cells: set<Key>, daily: Daily, cutoff: int, dates: set<nat>) {
    forall k :: k in cells <==> HasCell(daily, k) && k.date >= cutoff && k.date !in dates
  }

  // Some models of day d, and some features of model m, are still to come.
  ghost predicate CellsAreDay(cells: set<Key>, daily: Daily, cutoff: int, dates: set<nat>, d: nat, models: set<string>) {
    forall k :: k in cells <==>
      HasCell(daily, k) && k.date >= cutoff && k.date !in dates && !(k.date == d && k.model in models)
  }

  ghost predicate CellsAreModel(cells: set<Key>, daily: Daily, cutoff: int, dates: set<nat>, d: nat, models: set<string>,
                                m: string, features: set<string>) {
    forall k :: k in cells <==>
      HasCell(daily, k) && k.date >= cutoff && k.date !in dates && !(k.date == d && k.model in models) &&
      !(k.date == d && k.model == m && k.feature in features)
  }

  // The inner loop, over the features of one model on one day.
  method SumModel(daily: Daily, cutoff: int, dates: set<nat>, d: nat, models: set<string>, m: string, s0: Sums,
                  ghost log: seq<Call>, ghost cells0: set<Key>) returns (s: Sums, ghost cells: set<Key>)
    requires Represents(daily, log) && Covers(s0, log, cells0)
    requires d in daily && d !in dates && d >= cutoff && m in daily[d] && m !in models
    requires CellsAreDay(cells0, daily, cutoff, dates, d, models + {m})
    ensures CellsAreDay(cells, daily, cutoff, dates, d, models)
    ensures Covers(s, log, cells)
  {
    hide Covers, Add;
    s, cells := s0, cells0;
    var features := daily[d][m].Keys;
    while features != {}
      invariant features <= daily[d][m].Keys
      invariant CellsAreModel(cells, daily, cutoff, dates, d, models, m, features)
      invariant Covers(s, log, cells)
    {
      var f :| f in features;
      features := features - {f};
      var agg := daily[d][m][f];
      ghost var k := Key(d, m, f);
      assert HasCell(daily, k) && agg == Cell(daily, k);
      AddCellCovers(s, log, cells, k);
      var byModel, byFeature := s.byModel, s.byFeature;
      if m !in byModel {
        byModel := byModel[m := ZERO];
      }
      byModel := byModel[m := Add(byModel[m], agg)];
      if f !in byFeature {
        byFeature := byFeature[f := ZERO];
      }
      byFeature := byFeature[f := Add(byFeature[f], agg)];
      assert byModel == AddTo(s.byModel, m, agg) && byFeature == AddTo(s.byFeature, f, agg);
      s := Sums(Add(s.tot, agg), byModel, byFeature);
      cells := cells + {k};
    }
  }

  // ---------- the window totals are the fold over its calls ----------

  ghost function AnyKey(m: map<string, Agg>): (k: string)
    requires m.Keys != {}
    ensures k in m
  {
    var k :| k in m;
    k
  }

  ghost function SumMap(m: map<string, Agg>): Agg
    decreases |m|
  {
    if m.Keys == {} then ZERO else Add(m[AnyKey(m)], SumMap(m - {AnyKey(m)}))
  }

  // The aggregates of a grouping add up to the fold over the calls of its groups.
  lemma {:induction false} SumMapIsFold(m: map<string, Agg>, log: seq<Call>, p: Call -> bool, group: Call -> string)
    requires forall g :: g in m ==> m[g] == Fold(log, c => p(c) && group(c) == g)
    ensures SumMap(m) == Fold(log, c => p(c) && group(c) in m)
    decreases |m|
  {
    hide Fold, Add;
    if m.Keys == {} {
      FoldNone(log, c => p(c) && group(c) in m);
    } else {
      var k := AnyKey(m);
      var rest := m - {k};
      SumMapIsFold(rest, log, p, group);
      FoldSplit(log, c => p(c) && group(c) == k, c => p(c) && group(c) in rest, c => p(c) && group(c) in m);
    }
  }

  function WindowFold(log: seq<Call>, cutoff: int): Agg { Fold(log, c => Since(c, cutoff)) }

  // For any statistics that represent the calls: totals, sum over models, sum over features and the
  // fold over the calls since the cutoff are all equal.
  lemma WindowTotals(daily: Daily, cutoff: int, log: seq<Call>, s: Sums, cells: set<Key>)
    requires Represents(daily, log) && CellsAre(cells, daily, cutoff, {}) && Covers(s, log, cells)
    ensures s.tot == WindowFold(log, cutoff)
    ensures SumMap(s.byModel) == s.tot && SumMap(s.byFeature) == s.tot
  {
    hide Fold, Add, SumMap, HasCell, Cell, CellFold;
    forall c | c in log ensures KeyOf(c) in cells <==> Since(c, cutoff) {
      assert In(c, KeyOf(c));
    }
    FoldSame(log, c => KeyOf(c) in cells, c => Since(c, cutoff));
    ModelsAddUp(log, s, cells);
    FeaturesAddUp(log, s, cells);
  }

  lemma ModelsAddUp(log: seq<Call>, s: Sums, cells: set<Key>)
    requires Covers(s, log, cells)
    ensures SumMap(s.byModel) == SumFold(log, cells)
  {
    hide Fold, Add, SumMap;
    var p, group := (c: Call) => KeyOf(c) in cells, (c: Call) => c.model;
    forall m | m in s.byModel ensures s.byModel[m] == Fold(log, c => p(c) && group(c) == m) {
      FoldSame(log, c => KeyOf(c) in cells && c.model == m, c => p(c) && group(c) == m);
    }
    SumMapIsFold(s.byModel, log, p, group);
    FoldSame(log, c => p(c) && group(c) in s.byModel, p);
  }

  lemma FeaturesAddUp(log: seq<Call>, s: Sums, cells: set<Key>)
    requires Covers(s, log, cells)
    ensures SumMap(s.byFeature) == SumFold(log, cells)
  {
    hide Fold, Add, SumMap;
    var p, group := (c: Call) => KeyOf(c) in cells, (c: Call) => c.feature;
    forall f | f in s.byFeature ensures s.byFeature[f] == Fold(log, c => p(c) && group(c) == f) {
      FoldSame(log, c => KeyOf(c) in cells && c.feature == f, c => p(c) && group(c) == f);
    }
    SumMapIsFold(s.byFeature, log, p, group);
    FoldSame(log, c => p(c) && group(c) in s.byFeature, p);
  }

  predicate AtMost(a: Agg, b: Agg) {
    a.calls <= b.calls && a.prompt <= b.prompt && a.completion <= b.completion && a.total <= b.total && a.errors <= b.errors
  }

  ghost predicate NonNegative(log: seq<Call>) {
    forall c :: c in log ==> c.prompt >= 0 && c.completion >= 0
  }

  lemma {:induction false} FoldGrows(log: seq<Call>, p: Call -> bool, q: Call -> bool)
    requires NonNegative(log) && forall c :: p(c) ==> q(c)
    ensures AtMost(Fold(log, p), Fold(log, q))
  {
    if log != [] {
      assert log[|log| - 1] in log;
      FoldGrows(log[..|log| - 1], p, q);
    }
  }

  // What the page shows of a window, in terms of the calls alone: the models and features are those
  // of its calls, each with the fold over its own.
  ghost predicate Shows(s: Sums, log: seq<Call>, cutoff: int) {
    s.tot == WindowFold(log, cutoff) && SumMap(s.byModel) == s.tot && SumMap(s.byFeature) == s.tot &&
    (forall m :: m in s.byModel <==> exists c :: c in log && Since(c, cutoff) && c.model == m) &&
    (forall m :: m in s.byModel ==> s.byModel[m] == Fold(log, c => Since(c, cutoff) && c.model == m)) &&
    (forall f :: f in s.byFeature <==> exists c :: c in log && Since(c, cutoff) && c.feature == f) &&
    (forall f :: f in s.byFeature ==> s.byFeature[f] == Fold(log, c => Since(c, cutoff) && c.feature == f))
  }

  // One window shows at most what another does, by model and by feature too.
  ghost predicate Within(s: Sums, t: Sums) {
    AtMost(s.tot, t.tot) &&
    (forall m :: m in s.byModel ==> m in t.byModel && AtMost(s.byModel[m], t.byModel[m])) &&
    (forall f :: f in s.byFeature ==> f in t.byFeature && AtMost(s.byFeature[f], t.byFeature[f]))
  }

  // A longer window never shows less.
  lemma WindowsAreMonotone(log: seq<Call>, shorter: int, longer: int, s: Sums, t: Sums)
    requires NonNegative(log) && longer <= shorter && Shows(s, log, shorter) && Shows(t, log, longer)
    ensures Within(s, t)
  {
    hide Fold, AtMost, SumMap;
    FoldGrows(log, c => Since(c, shorter), c => Since(c, longer));
    forall m | m in s.byModel ensures m in t.byModel && AtMost(s.byModel[m], t.byModel[m]) {
      FoldGrows(log, c => Since(c, shorter) && c.model == m, c => Since(c, longer) && c.model == m);
    }
    forall f | f in s.byFeature ensures f in t.byFeature && AtMost(s.byFeature[f], t.byFeature[f]) {
      FoldGrows(log, c => Since(c, shorter) && c.feature == f, c => Since(c, longer) && c.feature == f);
    }
  }

  lemma WindowNames(daily: Daily, cutoff: int, log: seq<Call>, s: Sums, cells: set<Key>)
    requires Represents(daily, log) && CellsAre(cells, daily, cutoff, {}) && Covers(s, log, cells)
    ensures forall m :: m in s.byModel <==> exists c :: c in log && Since(c, cutoff) && c.model == m
    ensures forall f :: f in s.byFeature <==> exists c :: c in log && Since(c, cutoff) && c.feature == f
  {
    hide Fold, Add, HasCell, Cell, CellFold, SumFold, ModelFold, FeatureFold;
    forall c | c in log && Since(c, cutoff) ensures KeyOf(c) in cells {
      assert In(c, KeyOf(c));
    }
    forall k | k in cells ensures exists c :: c in log && Since(c, cutoff) && KeyOf(c) == k {
      var c :| c in log && In(c, k);
    }
  }

  lemma WindowGroups(daily: Daily, cutoff: int, log: seq<Call>, s: Sums, cells: set<Key>)
    requires Represents(daily, log) && CellsAre(cells, daily, cutoff, {}) && Covers(s, log, cells)
    ensures Shows(s, log, cutoff)
  {
    hide Fold, Add, SumMap, HasCell, Cell, CellFold, WindowFold;
    WindowTotals(daily, cutoff, log, s, cells);
    WindowNames(daily, cutoff, log, s, cells);
    forall c | c in log ensures KeyOf(c) in cells <==> Since(c, cutoff) {
      assert In(c, KeyOf(c));
    }
    forall m ensures ModelFold(log, cells, m) == Fold(log, c => Since(c, cutoff) && c.model == m) {
      FoldSame(log, c => KeyOf(c) in cells && c.model == m, c => Since(c, cutoff) && c.model == m);
    }
    forall f ensures FeatureFold(log, cells, f) == Fold(log, c => Since(c, cutoff) && c.feature == f) {
      FoldSame(log, c => KeyOf(c) in cells && c.feature == f, c => Since(c, cutoff) && c.feature == f);
    }
  }

  // The sum closure of the statistics page; maps are visited in any order.
  method SumCells(daily: Daily, cutoff: int, ghost log: seq<Call>) returns (s: Sums)
    requires Represents(daily, log)
    ensures Shows(s, log, cutoff)
  {
    hide Covers, Represents, Shows;
    s := Sums(ZERO, map[], map[]);
    ghost var cells: set<Key> := {};
    NothingCovered(log);
    var dates := daily.Keys;
    while dates != {}
      invariant dates <= daily.Keys
      invariant CellsAre(cells, daily, cutoff, dates)
      invariant Covers(s, log, cells)
    {
      var d :| d in dates;
      dates := dates - {d};
      if d < cutoff {
        continue;
      }
      var models := daily[d].Keys;
      while models != {}
        invariant models <= daily[d].Keys
        invariant CellsAreDay(cells, daily, cutoff, dates, d, models)
        invariant Covers(s, log, cells)
      {
        var m :| m in models;
        models := models - {m};
        s, cells := SumModel(daily, cutoff, dates, d, models, m, s, log, cells);
      }
    }
    WindowGroups(daily, cutoff, log, s, cells);
  }

  // The three windows of the statistics page
  method Statistics(daily: Daily, today: int, ghost log: seq<Call>) returns (day: Sums, week: Sums, month: Sums)
    requires Represents(daily, log)
    ensures Shows(day, log, today) && Shows(week, log, today - 6) && Shows(month, log, today - 29)
    ensures NonNegative(log) ==> Within(day, week) && Within(week, month)
  {
    hide Represents, Shows, Within;
    day := SumCells(daily, today - (1 - 1), log);
    week := SumCells(daily, today - (7 - 1), log);
    month := SumCells(daily, today - (30 - 1), log);
    if NonNegative(log) {
      WindowsAreMonotone(log, today, today - 6, day, week);
      WindowsAreMonotone(log, today - 6, today - 29, week, month);
    }
  }

  // ---------- the budget alert ----------

  // The cells that raised an alert, in order, under a fixed budget.
  function Alerts(log: seq<Call>, budget: int): seq<Key> {
    if log == [] then []
    else
      var init, k := log[..|log| - 1], KeyOf(log[|log| - 1]);
      Alerts(init, budget) +
      if Crosses(budget, CellFold(log, k).total, CellFold(init, k).total) then [k] else []
  }

  // Each cell alerts exactly once if it reaches the budget, and never otherwise.
  lemma {:induction false} AlertOncePerCell(log: seq<Call>, budget: int, k: Key)
    requires budget > 0 && NonNegative(log)
    ensures multiset(Alerts(log, budget))[k] == if CellFold(log, k).total >= budget then 1 else 0
  {
    if log != [] {
      var init, last := log[..|log| - 1], log[|log| - 1];
      assert last in log;
      AlertOncePerCell(init, budget, k);
    }
  }

  // The days that alert: a day has at most one alert exactly when at most one of its cells reaches
  // the budget, and an alert at all exactly when some cell of the day does.
  lemma AlertsPerDay(log: seq<Call>, budget: int, day: nat)
    requires budget > 0 && NonNegative(log)
    ensures (forall j, k :: j in Alerts(log, budget) && k in Alerts(log, budget) && j.date == day && k.date == day ==> j == k)
       <==> (forall j, k :: CellFold(log, j).total >= budget && CellFold(log, k).total >= budget && j.date == day && k.date == day ==> j == k)
    ensures (exists k :: k in Alerts(log, budget) && k.date == day) <==> (exists k :: CellFold(log, k).total >= budget && k.date == day)
    ensures forall k :: multiset(Alerts(log, budget))[k] <= 1
  {
    hide CellFold, Alerts;
    forall k
      ensures k in Alerts(log, budget) <==> CellFold(log, k).total >= budget
      ensures multiset(Alerts(log, budget))[k] <= 1
    {
      AlertOncePerCell(log, budget, k);
      assert k in Alerts(log, budget) <==> k in multiset(Alerts(log, budget));
    }
  }

  lemma FoldSnoc(log: seq<Call>, last: Call, p: Call -> bool)
    ensures Fold(log + [last], p) == Add(Fold(log, p), if p(last) then Of(last) else ZERO)
    ensures Fold([], p) == ZERO
  {
    hide Add, Of;
    assert (log + [last])[..|log|] == log;
  }

  lemma FoldPair(a: Call, b: Call, p: Call -> bool)
    ensures Fold([a], p) == if p(a) then Of(a) else ZERO
    ensures Fold([a, b], p) == Add(Fold([a], p), if p(b) then Of(b) else ZERO)
  {
    hide Fold, Add, Of;
    FoldSnoc([], a, p);
    FoldSnoc([a], b, p);
    assert [] + [a] == [a] && [a] + [b] == [a, b];
    AddZero(Of(a));
    AddZero(ZERO);
  }

  // "At most one alert a day, when the day's tokens pass the budget" fails both ways: two cells may
  // alert on one day, and a day may pass the budget with no alert at all.
  lemma DayClaimFails()
    ensures
      var a, b := Call(0, "inspect", "glm", 10, 0, 1, true), Call(0, "assistant", "glm", 10, 0, 1, true);
      Alerts([a, b], 10) == [KeyOf(a), KeyOf(b)]
    ensures
      var a, b := Call(0, "inspect", "glm", 6, 0, 1, true), Call(0, "assistant", "glm", 6, 0, 1, true);
      Alerts([a, b], 10) == [] && WindowFold([a, b], 0).total == 12
  {
    hide Fold, Alerts;
    var a, b := Call(0, "inspect", "glm", 10, 0, 1, true), Call(0, "assistant", "glm", 10, 0, 1, true);
    PairAlerts(a, b);
    var c, d := Call(0, "inspect", "glm", 6, 0, 1, true), Call(0, "assistant", "glm", 6, 0, 1, true);
    PairAlerts(c, d);
    FoldPair(c, d, x => Since(x, 0));
  }

  lemma AlertsSnoc(log: seq<Call>, last: Call, budget: int)
    ensures Alerts(log + [last], budget) == Alerts(log, budget) +
      if Crosses(budget, CellFold(log + [last], KeyOf(last)).total, CellFold(log, KeyOf(last)).total) then [KeyOf(last)] else []
    ensures Alerts([], budget) == []
  {
    hide CellFold, Crosses;
    assert (log + [last])[..|log|] == log;
  }

  lemma PairAlerts(a: Call, b: Call)
    requires KeyOf(a) != KeyOf(b)
    ensures Alerts([a, b], 10) ==
      (if Of(a).total >= 10 then [KeyOf(a)] else []) + (if Of(b).total >= 10 then [KeyOf(b)] else [])
  {
    hide Fold, Alerts;
    AlertsSnoc([], a, 10);
    AlertsSnoc([a], b, 10);
    assert [] + [a] == [a] && [a] + [b] == [a, b];
    FoldPair(a, b, c => In(c, KeyOf(a)));
    FoldPair(a, b, c => In(c, KeyOf(b)));
    FoldSnoc([], a, c => In(c, KeyOf(a)));
  }

  // The number of calls, and the sums of their tokens, that satisfy a condition
  function CallsOf(log: seq<Call>, p: Call -> bool): seq<Call> {
    if log == [] then []
    else CallsOf(log[..|log| - 1], p) + if p(log[|log| - 1]) then [log[|log| - 1]] else []
  }

  function Prompts(log: seq<Call>): int {
    if log == [] then 0 else Prompts(log[..|log| - 1]) + log[|log| - 1].prompt
  }

  function Completions(log: seq<Call>): int {
    if log == [] then 0 else Completions(log[..|log| - 1]) + log[|log| - 1].completion
  }

  function Failures(log: seq<Call>): nat {
    if log == [] then 0 else Failures(log[..|log| - 1]) + if log[|log| - 1].ok then 0 else 1
  }

  // What a fold counts: the calls, their tokens of both kinds, the sum of both, and the failed calls.
  lemma {:induction false} FoldCounts(log: seq<Call>, p: Call -> bool)
    ensures var own, agg := CallsOf(log, p), Fold(log, p);
      agg.calls == |own| && agg.prompt == Prompts(own) && agg.completion == Completions(own) &&
      agg.total == Prompts(own) + Completions(own) && agg.errors == Failures(own)
  {
    if log != [] {
      var front, last := log[..|log| - 1], log[|log| - 1];
      FoldCounts(front, p);
      var own := CallsOf(front, p);
      assert (own + [last])[..|own|] == own && own + [] == own;
    }
  }

  // Without a positive budget there is never an alert.
  lemma {:induction false} NoBudgetNoAlert(log: seq<Call>, budget: int)
    requires budget <= 0
    ensures Alerts(log, budget) == []
  {
    hide CellFold;
    if log != [] { NoBudgetNoAlert(log[..|log| - 1], budget); }
  }

  // ---------- from the calls to the page ----------

  // A whole life of the statistics: calls recorded one by one under a fixed budget, then the page.
  method RecordAndShow(log: seq<Call>, budget: int, today: int)
    returns (store: UsageStore, alerts: seq<Key>, day: Sums, week: Sums, month: Sums)
    ensures alerts == Alerts(log, budget)
    ensures store.recent == if |log| > 200 then log[|log| - 200..] else log
    ensures Represents(store.daily, log)
    ensures Shows(day, log, today) && Shows(week, log, today - 6) && Shows(month, log, today - 29)
    ensures NonNegative(log) ==> Within(day, week) && Within(week, month)
  {
    hide Record, LastRecent, Cell, HasCell, CellFold, Represents, Shows, Within, NonNegative, Crosses;
    store := new UsageStore();
    alerts := [];
    for i := 0 to |log|
      invariant store.daily == DailyAfter(log[..i]) && store.recent == RecentAfter(log[..i])
      invariant alerts == Alerts(log[..i], budget)
    {
      assert log[..i + 1][..i] == log[..i];
      CellIsFold(log[..i], KeyOf(log[i]));
      CellIsFold(log[..i + 1], KeyOf(log[i]));
      var alert := store.RecordCall(log[i], budget);
      if alert {
        alerts := alerts + [KeyOf(log[i])];
      }
    }
    assert log[..|log|] == log;
    RecentIsSuffix(log);
    CellsAreFolds(log);
    day, week, month := Statistics(store.daily, today, log);
  }
}
