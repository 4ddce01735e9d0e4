/** Aggregation of model spend (crates/api-server/src/llm_budget.rs), in exact arithmetic. */
module Spend {
  import opened Common
  import opened Ordering
  import opened Sorting

  /** UTF-8 text. */
  type Text = seq<byte>

  datatype Entry = Entry(spend: Option<real>, model: Option<Text>, startTime: Option<Text>, apiKey: Option<Text>)

  datatype KeyOwnership = KeyOwnership(aliasByToken: map<Text, Text>, groupByAlias: map<Text, Text>, groupByToken: map<Text, Text>)
  {
    /** A living Workshop wins over the metadata of the key. */
    function GroupOf(token: Option<Text>): Option<Text> {
      if token.None? then None
      else
        var t := token.value;
        if t in aliasByToken && aliasByToken[t] in groupByAlias then Some(groupByAlias[aliasByToken[t]])
        else if t in groupByToken then Some(groupByToken[t])
        else None
    }
  }

  /** "openai/atelier-plan-test" and "openai/atelier-budget-test" */
  const TEST_PRICING_MODELS: seq<Text> :=
    [[111, 112, 101, 110, 97, 105, 47, 97, 116, 101, 108, 105, 101, 114, 45, 112, 108, 97, 110, 45, 116, 101, 115, 116],
     [111, 112, 101, 110, 97, 105, 47, 97, 116, 101, 108, 105, 101, 114, 45, 98, 117, 100, 103, 101, 116, 45, 116, 101, 115, 116]]

  function SpendOf(e: Entry): real {
    if e.spend.Some? then e.spend.value else 0.0
  }

  function ModelOf(e: Entry): Text {
    if e.model.Some? then e.model.value else []
  }

  predicate IsTestModel(model: Text) {
    model in TEST_PRICING_MODELS
  }

  predicate IsTest(e: Entry) {
    IsTestModel(ModelOf(e))
  }

  /** `get(..10)`: none when the text is shorter, or the cut would split a character. */
  function DayOf(t: Text): Option<Text> {
    if |t| < 10 || (|t| > 10 && 0x80 <= t[10] < 0xC0) then None else Some(t[..10])
  }

  // ----- What is counted -----

  /** The three tables of the report. */
  datatype By = ByGroup(own: KeyOwnership) | ByDay | ByModel

  function Label(per: By, e: Entry): Option<Text> {
    match per
    case ByGroup(own) => own.GroupOf(e.apiKey)
    case ByDay => if e.startTime.Some? then DayOf(e.startTime.value) else None
    case ByModel => if ModelOf(e) == [] then None else Some(ModelOf(e))
  }

  datatype Amount = Amount(usd: real, requests: int) {
    function Plus(other: Amount): Amount {
      Amount(usd + other.usd, requests + other.requests)
    }
  }

  const ZERO := Amount(0.0, 0)

  /** A part of the entries. */
  datatype Part =
    | Testing                                   // at a fictitious price
    | Real                                      // all others
    | Unlabelled(per: By)                        // of those, what a table leaves out
    | Labelled(per: By, labels: set<Text>)       // and what it puts under these labels
  {
    predicate Has(e: Entry) {
      match this
      case Testing => IsTest(e)
      case Real => !IsTest(e)
      case Unlabelled(per) => !IsTest(e) && Label(per, e).None?
      case Labelled(per, labels) => !IsTest(e) && Label(per, e).Some? && Label(per, e).value in labels
    }
  }

  function Share(part: Part, e: Entry): Amount {
    if part.Has(e) then Amount(SpendOf(e), 1) else ZERO
  }

  function Sum(entries: seq<Entry>, part: Part): Amount {
    if entries == [] then ZERO else Sum(entries[..|entries| - 1], part).Plus(Share(part, entries[|entries| - 1]))
  }

  function SumOfAll(entries: seq<Entry>): real {
    if entries == [] then 0.0 else SumOfAll(entries[..|entries| - 1]) + SpendOf(entries[|entries| - 1])
  }

  function Labels(entries: seq<Entry>, per: By): set<Text> {
    if entries == [] then {}
    else
      var e := entries[|entries| - 1];
      Labels(entries[..|entries| - 1], per) + if !IsTest(e) && Label(per, e).Some? then {Label(per, e).value} else {}
  }

  // ----- The tables -----

  datatype Bucket = Bucket(name: Text, amount: Amount)

  /** The larger spend first, then by label. */
  predicate Larger(a: Bucket, b: Bucket) {
    a.amount.usd > b.amount.usd || (a.amount.usd == b.amount.usd && Less(a.name, b.name))
  }

  predicate Earlier(a: Bucket, b: Bucket) {
    Less(a.name, b.name)
  }

  /** One bucket for each label of `table`. */
  ghost predicate Lists(buckets: seq<Bucket>, table: map<Text, Amount>) {
    && DistinctNames(buckets)
    && (forall b :: b in buckets <==> b.name in table && table[b.name] == b.amount)
  }

  /** The table of what the entries have under each label. */
  ghost predicate Tabulates(table: map<Text, Amount>, entries: seq<Entry>, per: By) {
    table.Keys == Labels(entries, per) && forall l | l in table :: table[l] == Sum(entries, Labelled(per, {l}))
  }

  datatype Report = Report(total: real, testPricing: real, unattributed: real,
                           byDay: seq<Bucket>, byGroup: seq<Bucket>, byModel: seq<Bucket>)

  /** A list of buckets, in this order, of what the entries have under each label. */
  ghost predicate IsTable(buckets: seq<Bucket>, lt: (Bucket, Bucket) -> bool, entries: seq<Entry>, per: By) {
    StrictlySorted(lt, buckets) && exists table :: Tabulates(table, entries, per) && Lists(buckets, table)
  }

  ghost predicate IsReport(r: Report, entries: seq<Entry>, own: KeyOwnership) {
    && Counted(entries, own, r.total, r.testPricing, r.unattributed)
    && IsTable(r.byDay, Earlier, entries, ByDay)
    && IsTable(r.byGroup, Larger, entries, ByGroup(own))
    && IsTable(r.byModel, Larger, entries, ByModel)
  }

  // ----- Aggregating -----

  /** `entry(label).or_default()`, and one more request. */
  function Add(table: map<Text, Amount>, name: Text, usd: real): map<Text, Amount> {
    table[name := (if name in table then table[name] else ZERO).Plus(Amount(usd, 1))]
  }

  /** What one entry does to a table. */
  function AddEntry(table: map<Text, Amount>, per: By, e: Entry): map<Text, Amount> {
    if IsTest(e) || Label(per, e).None? then table else Add(table, Label(per, e).value, SpendOf(e))
  }

  lemma {:induction false} SumOfAbsent(entries: seq<Entry>, per: By, l: Text)
    requires l !in Labels(entries, per)
    ensures Sum(entries, Labelled(per, {l})) == ZERO
  {
    if entries != [] {
      SumOfAbsent(entries[..|entries| - 1], per, l);
      assert Share(Labelled(per, {l}), entries[|entries| - 1]) == ZERO;
      PlusZero(ZERO);
    }
  }

  lemma SumSnoc(entries: seq<Entry>, e: Entry, part: Part)
    ensures Sum(entries + [e], part) == Sum(entries, part).Plus(Share(part, e))
  {
    assert (entries + [e])[..|entries|] == entries;
  }

  lemma LabelsSnoc(entries: seq<Entry>, e: Entry, per: By)
    ensures Labels(entries + [e], per)
         == Labels(entries, per) + if !IsTest(e) && Label(per, e).Some? then {Label(per, e).value} else {}
  {
    assert (entries + [e])[..|entries|] == entries;
  }

  lemma TabulatesOneMore(table: map<Text, Amount>, entries: seq<Entry>, per: By, e: Entry)
    requires Tabulates(table, entries, per)
    ensures Tabulates(AddEntry(table, per, e), entries + [e], per)
  {
    var after := AddEntry(table, per, e);
    LabelsSnoc(entries, e, per);
    forall l | l in after ensures after[l] == Sum(entries + [e], Labelled(per, {l})) {
      SumSnoc(entries, e, Labelled(per, {l}));
      if l !in table {
        SumOfAbsent(entries, per, l);
      }
    }
  }

  ghost predicate Counted(entries: seq<Entry>, own: KeyOwnership, total: real, testPricing: real, unattributed: real) {
    && total == Sum(entries, Real).usd && testPricing == Sum(entries, Testing).usd
    && unattributed == Sum(entries, Unlabelled(ByGroup(own))).usd
  }

  lemma CountedOneMore(entries: seq<Entry>, own: KeyOwnership, e: Entry, total: real, testPricing: real, unattributed: real)
    requires Counted(entries, own, total, testPricing, unattributed)
    ensures IsTest(e) ==> Counted(entries + [e], own, total, testPricing + SpendOf(e), unattributed)
    ensures !IsTest(e) && own.GroupOf(e.apiKey).Some? ==>
              Counted(entries + [e], own, total + SpendOf(e), testPricing, unattributed)
    ensures !IsTest(e) && own.GroupOf(e.apiKey).None? ==>
              Counted(entries + [e], own, total + SpendOf(e), testPricing, unattributed + SpendOf(e))
  {
    SumSnoc(entries, e, Real);
    SumSnoc(entries, e, Testing);
    SumSnoc(entries, e, Unlabelled(ByGroup(own)));
    Shares(own, e);
  }

  lemma Shares(own: KeyOwnership, e: Entry)
    ensures Share(Real, e).usd == if IsTest(e) then 0.0 else SpendOf(e)
    ensures Share(Testing, e).usd == if IsTest(e) then SpendOf(e) else 0.0
    ensures Share(Unlabelled(ByGroup(own)), e).usd
         == if IsTest(e) || own.GroupOf(e.apiKey).Some? then 0.0 else SpendOf(e)
  {
  }

  ghost predicate Tables(byDay: map<Text, Amount>, byGroup: map<Text, Amount>, byModel: map<Text, Amount>,
                         entries: seq<Entry>, own: KeyOwnership)
  {
    Tabulates(byDay, entries, ByDay) && Tabulates(byGroup, entries, ByGroup(own)) && Tabulates(byModel, entries, ByModel)
  }

  lemma TablesOneMore(byDay: map<Text, Amount>, byGroup: map<Text, Amount>, byModel: map<Text, Amount>,
                      entries: seq<Entry>, own: KeyOwnership, e: Entry)
    requires Tables(byDay, byGroup, byModel, entries, own)
    ensures Tables(AddEntry(byDay, ByDay, e), AddEntry(byGroup, ByGroup(own), e), AddEntry(byModel, ByModel, e), entries + [e], own)
  {
    TabulatesOneMore(byDay, entries, ByDay, e);
    TabulatesOneMore(byGroup, entries, ByGroup(own), e);
    TabulatesOneMore(byModel, entries, ByModel, e);
  }

  /** What the loop carries from entry to entry. */
  datatype Tally = Tally(total: real, testPricing: real, unattributed: real,
                         byDay: map<Text, Amount>, byGroup: map<Text, Amount>, byModel: map<Text, Amount>)

  ghost predicate Tallies(t: Tally, entries: seq<Entry>, own: KeyOwnership) {
    && Counted(entries, own, t.total, t.testPricing, t.unattributed)
    && Tables(t.byDay, t.byGroup, t.byModel, entries, own)
  }

  function AfterEntry(t: Tally, e: Entry, own: KeyOwnership): Tally {
    if IsTest(e) then t.(testPricing := t.testPricing + SpendOf(e))
    else
      Tally(t.total + SpendOf(e), t.testPricing,
            if own.GroupOf(e.apiKey).Some? then t.unattributed else t.unattributed + SpendOf(e),
            AddEntry(t.byDay, ByDay, e), AddEntry(t.byGroup, ByGroup(own), e), AddEntry(t.byModel, ByModel, e))
  }

  lemma TestLeavesTables(t: Tally, e: Entry, own: KeyOwnership)
    requires IsTest(e)
    ensures AfterEntry(t, e, own) == t.(testPricing := t.testPricing + SpendOf(e))
    ensures AddEntry(t.byDay, ByDay, e) == t.byDay
    ensures AddEntry(t.byGroup, ByGroup(own), e) == t.byGroup
    ensures AddEntry(t.byModel, ByModel, e) == t.byModel
  {
  }

  lemma AfterEntryTables(t: Tally, e: Entry, own: KeyOwnership)
    ensures AfterEntry(t, e, own).byDay == AddEntry(t.byDay, ByDay, e)
    ensures AfterEntry(t, e, own).byGroup == AddEntry(t.byGroup, ByGroup(own), e)
    ensures AfterEntry(t, e, own).byModel == AddEntry(t.byModel, ByModel, e)
  {
    if IsTest(e) {
      TestLeavesTables(t, e, own);
    }
  }

  lemma AfterEntryCounts(t: Tally, entries: seq<Entry>, own: KeyOwnership, e: Entry)
    requires Counted(entries, own, t.total, t.testPricing, t.unattributed)
    ensures var t' := AfterEntry(t, e, own);
            Counted(entries + [e], own, t'.total, t'.testPricing, t'.unattributed)
  {
    CountedOneMore(entries, own, e, t.total, t.testPricing, t.unattributed);
  }

  lemma TalliesOneMore(t: Tally, t': Tally, entries: seq<Entry>, own: KeyOwnership, e: Entry)
    requires Tallies(t, entries, own) && t' == AfterEntry(t, e, own)
    ensures Tallies(t', entries + [e], own)
  {
    AfterEntryTables(t, e, own);
    AfterEntryCounts(t, entries, own, e);
    TablesOneMore(t.byDay, t.byGroup, t.byModel, entries, own, e);
  }

  lemma RealAdds(t: Tally, e: Entry, own: KeyOwnership)
    requires !IsTestModel(ModelOf(e))
    ensures AddEntry(t.byDay, ByDay, e)
         == var day := if e.startTime.Some? then DayOf(e.startTime.value) else None;
            if day.Some? then Add(t.byDay, day.value, SpendOf(e)) else t.byDay
    ensures AddEntry(t.byGroup, ByGroup(own), e)
         == var group := own.GroupOf(e.apiKey);
            if group.Some? then Add(t.byGroup, group.value, SpendOf(e)) else t.byGroup
    ensures AddEntry(t.byModel, ByModel, e)
         == if ModelOf(e) != [] then Add(t.byModel, ModelOf(e), SpendOf(e)) else t.byModel
  {
  }

  /** One turn of the loop. */
  method Count(t: Tally, e: Entry, own: KeyOwnership) returns (t': Tally)
    ensures t' == AfterEntry(t, e, own)
  {
    var spend, model := SpendOf(e), ModelOf(e);
    if IsTestModel(model) {
      return t.(testPricing := t.testPricing + spend);
    }
    var byDay, byGroup, byModel, unattributed := t.byDay, t.byGroup, t.byModel, t.unattributed;
    var group := own.GroupOf(e.apiKey);
    if group.Some? {
      byGroup := Add(byGroup, group.value, spend);
    } else {
      unattributed := unattributed + spend;
    }
    var day := if e.startTime.Some? then DayOf(e.startTime.value) else None;
    if day.Some? {
      byDay := Add(byDay, day.value, spend);
    }
    if model != [] {
      byModel := Add(byModel, model, spend);
    }
    RealAdds(t, e, own);
    return Tally(t.total + spend, t.testPricing, unattributed, byDay, byGroup, byModel);
  }

  lemma NothingTallied(own: KeyOwnership)
    ensures Tallies(Tally(0.0, 0.0, 0.0, map[], map[], map[]), [], own)
  {
  }

  method Aggregate(entries: seq<Entry>, own: KeyOwnership) returns (r: Report)
    ensures IsReport(r, entries, own)
  {
    var t := Tally(0.0, 0.0, 0.0, map[], map[], map[]);
    NothingTallied(own);
    for i := 0 to |entries|
      invariant Tallies(t, entries[..i], own)
    {
      var t' := Count(t, entries[i], own);
      TalliesOneMore(t, t', entries[..i], own, entries[i]);
      t := t';
      assert entries[..i + 1] == entries[..i] + [entries[i]];
    }
    assert entries[..|entries|] == entries;
    var days := SortedBuckets(t.byDay);
    days := SortDays(days, t.byDay);
    var groups := SortedBuckets(t.byGroup);
    var models := SortedBuckets(t.byModel);
    r := Report(t.total, t.testPricing, t.unattributed, days, groups, models);
    TablesMakeAReport(r, t.byDay, t.byGroup, t.byModel, entries, own);
  }

  lemma TablesMakeAReport(r: Report, byDay: map<Text, Amount>, byGroup: map<Text, Amount>, byModel: map<Text, Amount>,
                          entries: seq<Entry>, own: KeyOwnership)
    requires Counted(entries, own, r.total, r.testPricing, r.unattributed) && Tables(byDay, byGroup, byModel, entries, own)
    requires Lists(r.byDay, byDay) && StrictlySorted(Earlier, r.byDay)
    requires Lists(r.byGroup, byGroup) && StrictlySorted(Larger, r.byGroup)
    requires Lists(r.byModel, byModel) && StrictlySorted(Larger, r.byModel)
    ensures IsReport(r, entries, own)
  {
    assert Tabulates(byDay, entries, ByDay) && Lists(r.byDay, byDay);
    assert Tabulates(byGroup, entries, ByGroup(own)) && Lists(r.byGroup, byGroup);
    assert Tabulates(byModel, entries, ByModel) && Lists(r.byModel, byModel);
  }

  // ----- Sorting -----

  predicate LargerOrEqual(a: Bucket, b: Bucket) {
    a.amount.usd > b.amount.usd || (a.amount.usd == b.amount.usd && !Less(b.name, a.name))
  }

  predicate EarlierOrEqual(a: Bucket, b: Bucket) {
    !Less(b.name, a.name)
  }

  lemma LabelOrder(a: Text, b: Text, c: Text)
    ensures !Less(a, b) || !Less(b, a)
    ensures !Less(b, a) && !Less(c, b) ==> !Less(c, a)
    ensures a != b && !Less(b, a) ==> Less(a, b)
  {
    LessIsTotal(a, b);
    if Less(a, b) && Less(b, a) {
      LessIsTransitive(a, b, a);
      LessIsIrreflexive(a);
    }
    if Less(c, a) && Less(a, b) {
      LessIsTransitive(c, a, b);
    }
  }

  lemma OrdersAreTotal()
    ensures Total(LargerOrEqual) && Total(EarlierOrEqual)
  {
    forall a: Bucket, b: Bucket
      ensures (LargerOrEqual(a, b) || LargerOrEqual(b, a)) && (EarlierOrEqual(a, b) || EarlierOrEqual(b, a))
    {
      LabelOrder(a.name, b.name, a.name);
    }
    forall a: Bucket, b: Bucket, c: Bucket
      ensures LargerOrEqual(a, b) && LargerOrEqual(b, c) ==> LargerOrEqual(a, c)
      ensures EarlierOrEqual(a, b) && EarlierOrEqual(b, c) ==> EarlierOrEqual(a, c)
    {
      LabelOrder(a.name, b.name, c.name);
    }
  }

  /** Sorting keeps a listing a listing, and no two buckets tie. */
  lemma SortedListing(buckets: seq<Bucket>, sorted: seq<Bucket>, table: map<Text, Amount>)
    requires Lists(buckets, table) && multiset(sorted) == multiset(buckets)
    ensures Lists(sorted, table)
    ensures Sorted(LargerOrEqual, sorted) ==> StrictlySorted(Larger, sorted)
    ensures Sorted(EarlierOrEqual, sorted) ==> StrictlySorted(Earlier, sorted)
  {
    forall b ensures b in sorted <==> b in buckets {
      assert b in sorted <==> b in multiset(sorted);
      assert b in buckets <==> b in multiset(buckets);
    }
    forall i, j | 0 <= i < j < |sorted| ensures sorted[i].name != sorted[j].name {
      if sorted[i].name == sorted[j].name {
        assert sorted[i] in buckets && sorted[j] in buckets;
        assert sorted[i] == sorted[j];
        TwiceIsTwo(sorted, i, j);
        OnceIsOne(buckets, sorted[i]);
      }
    }
    forall i, j | 0 <= i < j < |sorted|
      ensures LargerOrEqual(sorted[i], sorted[j]) ==> Larger(sorted[i], sorted[j])
      ensures EarlierOrEqual(sorted[i], sorted[j]) ==> Earlier(sorted[i], sorted[j])
    {
      LabelOrder(sorted[i].name, sorted[j].name, sorted[i].name);
    }
  }

  lemma TwiceIsTwo(s: seq<Bucket>, i: nat, j: nat)
    requires i < j < |s| && s[i] == s[j]
    ensures multiset(s)[s[i]] >= 2
  {
    assert s == s[..i] + [s[i]] + s[i + 1..j] + [s[j]] + s[j + 1..];
  }

  lemma {:induction false} OnceIsOne(s: seq<Bucket>, b: Bucket)
    requires forall i, j | 0 <= i < j < |s| :: s[i].name != s[j].name
    ensures multiset(s)[b] <= 1
  {
    if s != [] {
      OnceIsOne(s[1..], b);
      assert s == [s[0]] + s[1..];
      assert s[0] == b ==> b !in s[1..];
    }
  }

  /** Whatever order the map gives its entries in, the result is the strict order of its buckets. */
  method SortedBuckets(table: map<Text, Amount>) returns (buckets: seq<Bucket>)
    ensures Lists(buckets, table) && StrictlySorted(Larger, buckets)
  {
    var all: seq<Bucket> := [];
    var left := table.Keys;
    while left != {}
      invariant left <= table.Keys
      invariant Lists(all, table - left)
      decreases left
    {
      var l :| l in left;
      all := all + [Bucket(l, table[l])];
      left := left - {l};
    }
    assert table - {} == table;
    buckets := Sort(LargerOrEqual, all);
    OrdersAreTotal();
    SortSorts(LargerOrEqual, all);
    SortedListing(all, buckets, table);
  }

  /** Days are read in the order of time. */
  method SortDays(days: seq<Bucket>, ghost table: map<Text, Amount>) returns (sorted: seq<Bucket>)
    requires Lists(days, table)
    ensures Lists(sorted, table) && StrictlySorted(Earlier, sorted)
  {
    sorted := Sort(EarlierOrEqual, days);
    OrdersAreTotal();
    SortSorts(EarlierOrEqual, days);
    SortedListing(days, sorted, table);
  }

  // ----- Conservation -----

  lemma {:induction false} RealAndTesting(entries: seq<Entry>)
    ensures Sum(entries, Real).usd + Sum(entries, Testing).usd == SumOfAll(entries)
  {
    if entries != [] {
      RealAndTesting(entries[..|entries| - 1]);
    }
  }

  lemma PlusZero(x: Amount)
    ensures ZERO.Plus(x) == x && x.Plus(ZERO) == x
  {
  }

  lemma PlusRegroups(a: Amount, b: Amount, x: Amount, y: Amount)
    ensures a.Plus(x).Plus(b.Plus(y)) == a.Plus(b).Plus(x.Plus(y))
  {
  }

  /** Two parts that make up a third, entry by entry, do so in sum. */
  predicate MakeUp(a: Part, b: Part, c: Part, e: Entry) {
    Share(a, e).Plus(Share(b, e)) == Share(c, e)
  }

  lemma {:induction false} SumsAdd(entries: seq<Entry>, a: Part, b: Part, c: Part)
    requires forall e | e in entries :: MakeUp(a, b, c, e)
    ensures Sum(entries, a).Plus(Sum(entries, b)) == Sum(entries, c)
  {
    if entries == [] {
      PlusZero(ZERO);
    } else {
      var before, e := entries[..|entries| - 1], entries[|entries| - 1];
      SumsAdd(before, a, b, c);
      assert MakeUp(a, b, c, e);
      PlusRegroups(Sum(before, a), Sum(before, b), Share(a, e), Share(b, e));
    }
  }

  /** An entry that is in `c` is in `a` or in `b`, and not in both. */
  lemma PartsMakeUp(a: Part, b: Part, c: Part, e: Entry)
    requires c.Has(e) <==> a.Has(e) || b.Has(e)
    requires !(a.Has(e) && b.Has(e))
    ensures MakeUp(a, b, c, e)
  {
    PlusZero(Share(c, e));
    if a.Has(e) {
      assert Share(a, e) == Share(c, e) && Share(b, e) == ZERO;
    } else {
      assert Share(b, e) == Share(c, e) && Share(a, e) == ZERO;
    }
  }

  /** A table and what it leaves out make up everything. */
  lemma LabelledAndNot(entries: seq<Entry>, per: By, labels: set<Text>)
    requires Labels(entries, per) <= labels
    ensures Sum(entries, Labelled(per, labels)).Plus(Sum(entries, Unlabelled(per))) == Sum(entries, Real)
  {
    var a, b := Labelled(per, labels), Unlabelled(per);
    forall e | e in entries ensures MakeUp(a, b, Real, e) {
      if Label(per, e).Some? && !IsTest(e) {
        LabelsAre(entries, per, Label(per, e).value);
      }
      PartsMakeUp(a, b, Real, e);
    }
    SumsAdd(entries, a, b, Real);
  }

  lemma OneMoreLabel(entries: seq<Entry>, per: By, labels: set<Text>, l: Text)
    requires l !in labels
    ensures Sum(entries, Labelled(per, labels)).Plus(Sum(entries, Labelled(per, {l}))) == Sum(entries, Labelled(per, labels + {l}))
  {
    var a, b, c := Labelled(per, labels), Labelled(per, {l}), Labelled(per, labels + {l});
    forall e | e in entries ensures MakeUp(a, b, c, e) {
      PartsMakeUp(a, b, c, e);
    }
    SumsAdd(entries, a, b, c);
  }

  lemma {:induction false} NoLabel(entries: seq<Entry>, per: By)
    ensures Sum(entries, Labelled(per, {})) == ZERO
  {
    if entries != [] {
      NoLabel(entries[..|entries| - 1], per);
      assert Share(Labelled(per, {}), entries[|entries| - 1]) == ZERO;
      PlusZero(ZERO);
    }
  }

  function SumOfBuckets(buckets: seq<Bucket>): Amount {
    if buckets == [] then ZERO else SumOfBuckets(buckets[..|buckets| - 1]).Plus(buckets[|buckets| - 1].amount)
  }

  function Names(buckets: seq<Bucket>): set<Text> {
    if buckets == [] then {} else Names(buckets[..|buckets| - 1]) + {buckets[|buckets| - 1].name}
  }

  predicate DistinctNames(buckets: seq<Bucket>) {
    forall i, j | 0 <= i < j < |buckets| :: buckets[i].name != buckets[j].name
  }

  predicate Fair(buckets: seq<Bucket>, entries: seq<Entry>, per: By) {
    forall b | b in buckets :: b.amount == Sum(entries, Labelled(per, {b.name}))
  }

  lemma {:induction false} NamesAre(buckets: seq<Bucket>, l: Text)
    ensures l in Names(buckets) <==> exists b | b in buckets :: b.name == l
  {
    if buckets != [] {
      var before, last := buckets[..|buckets| - 1], buckets[|buckets| - 1];
      NamesAre(before, l);
      assert buckets == before + [last];
    }
  }

  lemma LastNameIsNew(buckets: seq<Bucket>)
    requires buckets != [] && DistinctNames(buckets)
    ensures buckets[|buckets| - 1].name !in Names(buckets[..|buckets| - 1])
  {
    NamesAre(buckets[..|buckets| - 1], buckets[|buckets| - 1].name);
  }

  lemma {:induction false} BucketsAddUp(buckets: seq<Bucket>, entries: seq<Entry>, per: By)
    requires DistinctNames(buckets) && Fair(buckets, entries, per)
    ensures SumOfBuckets(buckets) == Sum(entries, Labelled(per, Names(buckets)))
  {
    if buckets == [] {
      NoLabel(entries, per);
    } else {
      var before, last := buckets[..|buckets| - 1], buckets[|buckets| - 1];
      assert forall b | b in before :: b in buckets;
      BucketsAddUp(before, entries, per);
      LastNameIsNew(buckets);
      assert last in buckets;
      OneMoreLabel(entries, per, Names(before), last.name);
      assert Names(buckets) == Names(before) + {last.name};
    }
  }

  /** A table accounts for all real spend but what it leaves out: in dollars and in requests. */
  lemma TableConserves(buckets: seq<Bucket>, lt: (Bucket, Bucket) -> bool, entries: seq<Entry>, per: By)
    requires IsTable(buckets, lt, entries, per)
    ensures SumOfBuckets(buckets).Plus(Sum(entries, Unlabelled(per))) == Sum(entries, Real)
  {
    var table :| Tabulates(table, entries, per) && Lists(buckets, table);
    BucketsAddUp(buckets, entries, per);
    forall l | l in Labels(entries, per) ensures l in Names(buckets) {
      assert Bucket(l, table[l]) in buckets;
      NamesAre(buckets, l);
    }
    LabelledAndNot(entries, per, Names(buckets));
  }

  /** Nothing is lost and nothing is counted twice. */
  lemma ReportConserves(r: Report, entries: seq<Entry>, own: KeyOwnership)
    requires IsReport(r, entries, own)
    ensures r.total + r.testPricing == SumOfAll(entries)
    ensures SumOfBuckets(r.byGroup).usd + r.unattributed == r.total
    ensures SumOfBuckets(r.byModel).usd + Sum(entries, Unlabelled(ByModel)).usd == r.total
    ensures SumOfBuckets(r.byDay).usd + Sum(entries, Unlabelled(ByDay)).usd == r.total
  {
    RealAndTesting(entries);
    TableConserves(r.byGroup, Larger, entries, ByGroup(own));
    TableConserves(r.byModel, Larger, entries, ByModel);
    TableConserves(r.byDay, Earlier, entries, ByDay);
  }

  // ----- Order does not matter -----

  lemma {:induction false} SumSplit(a: seq<Entry>, b: seq<Entry>, part: Part)
    ensures Sum(a + b, part) == Sum(a, part).Plus(Sum(b, part))
    decreases b
  {
    if b == [] {
      assert a + b == a;
    } else {
      assert (a + b)[..|a + b| - 1] == a + b[..|b| - 1];
      SumSplit(a, b[..|b| - 1], part);
    }
  }

  lemma PlusCommutes(a: Amount, b: Amount, c: Amount)
    ensures a.Plus(b.Plus(c)) == b.Plus(a.Plus(c))
  {
  }

  lemma {:induction false} SumOfPermutation(a: seq<Entry>, b: seq<Entry>, part: Part)
    requires multiset(a) == multiset(b)
    ensures Sum(a, part) == Sum(b, part)
    decreases |a|
  {
    if a == [] {
      assert |multiset(b)| == 0;
    } else {
      var e := a[0];
      assert e in multiset(b);
      var i :| 0 <= i < |b| && b[i] == e;
      var front, back := b[..i], b[i + 1..];
      assert a == [e] + a[1..] && b == front + ([e] + back);
      RestOfPermutation(e, a[1..], front, back);
      SumOfPermutation(a[1..], front + back, part);
      SumSplit([e], a[1..], part);
      SumSplit(front, [e] + back, part);
      SumSplit([e], back, part);
      SumSplit(front, back, part);
      PlusCommutes(Sum([e], part), Sum(front, part), Sum(back, part));
    }
  }

  lemma RestOfPermutation(e: Entry, rest: seq<Entry>, front: seq<Entry>, back: seq<Entry>)
    requires multiset([e] + rest) == multiset(front + ([e] + back))
    ensures multiset(rest) == multiset(front + back)
  {
    assert multiset([e] + rest) == multiset([e]) + multiset(rest);
    assert multiset(front + ([e] + back)) == multiset(front) + (multiset([e]) + multiset(back));
    assert multiset(front + back) == multiset(front) + multiset(back);
    assert multiset(rest) == multiset([e] + rest) - multiset([e]);
  }

  predicate IsLabel(entries: seq<Entry>, per: By, l: Text) {
    exists e | e in entries :: !IsTest(e) && Label(per, e) == Some(l)
  }

  lemma {:induction false} LabelsAre(entries: seq<Entry>, per: By, l: Text)
    ensures l in Labels(entries, per) <==> IsLabel(entries, per, l)
  {
    if entries != [] {
      var before, last := entries[..|entries| - 1], entries[|entries| - 1];
      LabelsAre(before, per, l);
      assert entries == before + [last];
    }
  }

  lemma LabelsOfPermutation(a: seq<Entry>, b: seq<Entry>, per: By)
    requires multiset(a) == multiset(b)
    ensures Labels(a, per) == Labels(b, per)
  {
    forall e ensures e in a <==> e in b {
      assert e in a <==> e in multiset(a);
      assert e in b <==> e in multiset(b);
    }
    forall l ensures l in Labels(a, per) <==> l in Labels(b, per) {
      LabelsAre(a, per, l);
      LabelsAre(b, per, l);
    }
  }

  lemma TableIsUnique(a: seq<Bucket>, b: seq<Bucket>, lt: (Bucket, Bucket) -> bool, first: seq<Entry>, second: seq<Entry>, per: By)
    requires IsTable(a, lt, first, per) && IsTable(b, lt, second, per) && multiset(first) == multiset(second)
    requires forall x, y | lt(x, y) :: !lt(y, x)
    ensures a == b
  {
    var t :| Tabulates(t, first, per) && Lists(a, t);
    var u :| Tabulates(u, second, per) && Lists(b, u);
    LabelsOfPermutation(first, second, per);
    forall l | l in t ensures t[l] == u[l] {
      SumOfPermutation(first, second, Labelled(per, {l}));
    }
    assert t == u;
    StrictOrderIsUnique(lt, a, b);
  }

  /** Two reports of the same entries, in any order and whatever order the maps were read in, are the same. */
  lemma ReportIsUnique(r: Report, s: Report, first: seq<Entry>, second: seq<Entry>, own: KeyOwnership)
    requires IsReport(r, first, own) && IsReport(s, second, own) && multiset(first) == multiset(second)
    ensures r == s
  {
    SumOfPermutation(first, second, Real);
    SumOfPermutation(first, second, Testing);
    SumOfPermutation(first, second, Unlabelled(ByGroup(own)));
    forall x: Bucket, y: Bucket ensures (Larger(x, y) ==> !Larger(y, x)) && (Earlier(x, y) ==> !Earlier(y, x)) {
      LabelOrder(x.name, y.name, x.name);
    }
    TableIsUnique(r.byDay, s.byDay, Earlier, first, second, ByDay);
    TableIsUnique(r.byGroup, s.byGroup, Larger, first, second, ByGroup(own));
    TableIsUnique(r.byModel, s.byModel, Larger, first, second, ByModel);
  }

  // ----- One entry -----

  /** The one bucket of a table, or none. */
  function OneBucket(name: Option<Text>, usd: real): seq<Bucket> {
    if name.Some? then [Bucket(name.value, Amount(usd, 1))] else []
  }

  lemma OneEntrySums(e: Entry, part: Part)
    ensures Sum([e], part) == Share(part, e)
  {
    assert [e][..0] == [];
    PlusZero(Share(part, e));
  }

  lemma FirstIsIn(buckets: seq<Bucket>)
    ensures |buckets| > 0 ==> buckets[0] in buckets
  {
  }

  lemma SecondDiffers(buckets: seq<Bucket>)
    requires DistinctNames(buckets)
    ensures |buckets| > 1 ==> buckets[0].name != buckets[1].name
  {
  }

  lemma LabelsOfOne(e: Entry, per: By)
    ensures Labels([e], per) == if IsTest(e) || Label(per, e).None? then {} else {Label(per, e).value}
  {
    LabelsSnoc([], e, per);
    assert [] + [e] == [e];
  }

  lemma NoBucket(buckets: seq<Bucket>, table: map<Text, Amount>)
    requires Lists(buckets, table) && table.Keys == {}
    ensures buckets == []
  {
    FirstIsIn(buckets);
  }

  lemma OneEntryTable(buckets: seq<Bucket>, lt: (Bucket, Bucket) -> bool, e: Entry, per: By)
    requires IsTable(buckets, lt, [e], per)
    ensures buckets == if IsTest(e) then [] else OneBucket(Label(per, e), SpendOf(e))
  {
    var table :| Tabulates(table, [e], per) && Lists(buckets, table);
    LabelsOfOne(e, per);
    if IsTest(e) || Label(per, e).None? {
      NoBucket(buckets, table);
    } else {
      AmountOfOne(e, per, table);
      OnlyBucket(buckets, Bucket(Label(per, e).value, Amount(SpendOf(e), 1)), table);
    }
  }

  lemma ShareOfOne(e: Entry, per: By, l: Text)
    requires !IsTest(e) && Label(per, e) == Some(l)
    ensures Share(Labelled(per, {l}), e) == Amount(SpendOf(e), 1)
  {
  }

  lemma AmountOfOne(e: Entry, per: By, table: map<Text, Amount>)
    requires Tabulates(table, [e], per) && !IsTest(e) && Label(per, e).Some? && Label(per, e).value in table
    ensures table[Label(per, e).value] == Amount(SpendOf(e), 1)
  {
    OneEntrySums(e, Labelled(per, {Label(per, e).value}));
    ShareOfOne(e, per, Label(per, e).value);
  }

  lemma OnlyBucket(buckets: seq<Bucket>, b: Bucket, table: map<Text, Amount>)
    requires Lists(buckets, table) && table.Keys == {b.name} && table[b.name] == b.amount
    ensures buckets == [b]
  {
    assert b in buckets;
    assert forall i | 0 <= i < |buckets| :: buckets[i] in buckets && buckets[i].name == b.name;
    SecondDiffers(buckets);
  }

  /** The group that an entry of this key is counted under: that of the living Workshop, else that of the key itself. */
  predicate BelongsTo(own: KeyOwnership, token: Text, group: Text) {
    if token in own.aliasByToken && own.aliasByToken[token] in own.groupByAlias
    then own.groupByAlias[own.aliasByToken[token]] == group
    else token in own.groupByToken && own.groupByToken[token] == group
  }

  lemma BucketNames(name: Option<Text>, other: Text, usd: real)
    ensures OneBucket(name, usd) == [Bucket(other, Amount(usd, 1))] <==> name == Some(other)
  {
    assert name.Some? ==> OneBucket(name, usd)[0].name == name.value;
  }

  lemma GroupOfOneEntry(e: Entry, own: KeyOwnership, group: Text)
    ensures Label(ByGroup(own), e) == Some(group) <==> e.apiKey.Some? && BelongsTo(own, e.apiKey.value, group)
  {
  }

  lemma GroupsOfOne(buckets: seq<Bucket>, e: Entry, own: KeyOwnership, group: Text)
    requires IsTable(buckets, Larger, [e], ByGroup(own)) && !IsTest(e)
    ensures buckets == [Bucket(group, Amount(SpendOf(e), 1))] <==> e.apiKey.Some? && BelongsTo(own, e.apiKey.value, group)
    ensures buckets == [] <==> Label(ByGroup(own), e).None?
  {
    OneEntryTable(buckets, Larger, e, ByGroup(own));
    BucketNames(Label(ByGroup(own), e), group, SpendOf(e));
    GroupOfOneEntry(e, own, group);
  }

  lemma RestOfOne(e: Entry, own: KeyOwnership)
    requires !IsTest(e)
    ensures Sum([e], Unlabelled(ByGroup(own))).usd == if Label(ByGroup(own), e).None? then SpendOf(e) else 0.0
  {
    OneEntrySums(e, Unlabelled(ByGroup(own)));
    Shares(own, e);
  }

  /** Under which group one entry is counted: the one that its key belongs to, and that one only. */
  lemma GroupsOfOneEntry(r: Report, e: Entry, own: KeyOwnership, group: Text)
    requires IsReport(r, [e], own) && !IsTest(e)
    ensures r.byGroup == [Bucket(group, Amount(SpendOf(e), 1))] <==>
              e.apiKey.Some? && BelongsTo(own, e.apiKey.value, group)
    ensures r.unattributed == if r.byGroup == [] then SpendOf(e) else 0.0
  {
    GroupsOfOne(r.byGroup, e, own, group);
    RestOfOne(e, own);
  }

  /** Under which model, and under which day: the first ten bytes of its time, if they end a character. */
  lemma ColumnsOfOneEntry(r: Report, e: Entry, own: KeyOwnership, day: Text)
    requires IsReport(r, [e], own) && !IsTest(e)
    ensures r.byModel == OneBucket(if e.model.Some? && e.model.value != [] then e.model else None, SpendOf(e))
    ensures r.byDay == [Bucket(day, Amount(SpendOf(e), 1))] <==>
              && e.startTime.Some? && |e.startTime.value| >= 10 && day == e.startTime.value[..10]
              && (|e.startTime.value| > 10 ==> !(0x80 <= e.startTime.value[10] < 0xC0))
  {
    OneEntryTable(r.byDay, Earlier, e, ByDay);
    OneEntryTable(r.byModel, Larger, e, ByModel);
    BucketNames(Label(ByDay, e), day, SpendOf(e));
  }

  lemma SumsOfOne(e: Entry, own: KeyOwnership)
    ensures Sum([e], Real).usd == (if IsTest(e) then 0.0 else SpendOf(e))
    ensures Sum([e], Testing).usd == (if IsTest(e) then SpendOf(e) else 0.0)
  {
    OneEntrySums(e, Real);
    OneEntrySums(e, Testing);
    Shares(own, e);
  }

  /** What is spent at a fictitious price is only told as such; all else is in the total. */
  lemma TotalsOfOneEntry(r: Report, e: Entry, own: KeyOwnership)
    requires IsReport(r, [e], own)
    ensures var usd := if e.spend.Some? then e.spend.value else 0.0;
            r.total == (if IsTest(e) then 0.0 else usd) && r.testPricing == (if IsTest(e) then usd else 0.0)
    ensures IsTest(e) ==> r.byDay == [] && r.byGroup == [] && r.byModel == []
  {
    SumsOfOne(e, own);
    OneEntryTable(r.byDay, Earlier, e, ByDay);
    OneEntryTable(r.byGroup, Larger, e, ByGroup(own));
    OneEntryTable(r.byModel, Larger, e, ByModel);
  }

  /** Groups and models are told by what was spent, the most first, and at equal spend by name; days in the order of time. */
  lemma TablesAreOrdered(r: Report, entries: seq<Entry>, own: KeyOwnership, i: nat, j: nat)
    requires IsReport(r, entries, own) && i < j
    ensures j < |r.byGroup| ==>
              var a, b := r.byGroup[i], r.byGroup[j];
              a.amount.usd >= b.amount.usd && (a.amount.usd == b.amount.usd ==> Less(a.name, b.name))
    ensures j < |r.byModel| ==>
              var a, b := r.byModel[i], r.byModel[j];
              a.amount.usd >= b.amount.usd && (a.amount.usd == b.amount.usd ==> Less(a.name, b.name))
    ensures j < |r.byDay| ==> Less(r.byDay[i].name, r.byDay[j].name)
  {
  }

  predicate Spells(text: Text, s: string) {
    |text| == |s| && forall i | 0 <= i < |s| :: text[i] == s[i] as int
  }

  /** Which models have a fictitious price. */
  lemma TestModelsAre(e: Entry)
    ensures IsTest(e) <==>
              e.model.Some? &&
              (Spells(e.model.value, "openai/atelier-plan-test") || Spells(e.model.value, "openai/atelier-budget-test"))
  {
    TestModelsSpell();
    var model := ModelOf(e);
    if IsTestModel(model) {
      assert model == TEST_PRICING_MODELS[0] || model == TEST_PRICING_MODELS[1];
    }
    if Spells(model, "openai/atelier-plan-test") {
      assert model == TEST_PRICING_MODELS[0];
    }
    if Spells(model, "openai/atelier-budget-test") {
      assert model == TEST_PRICING_MODELS[1];
    }
  }

  lemma TestModelsSpell()
    ensures |TEST_PRICING_MODELS| == 2
    ensures Spells(TEST_PRICING_MODELS[0], "openai/atelier-plan-test")
    ensures Spells(TEST_PRICING_MODELS[1], "openai/atelier-budget-test")
  {
  }
}
