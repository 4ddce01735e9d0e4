/** Eviction of the image cache (crates/controller/src/eviction.rs): one pass, and when passes start. */
module Eviction {
  import opened Common
  import opened Ordering
  import opened Sorting

  // ----- One pass -----

  /** A directory `sha256_*` of the cache. */
  datatype Entry = Entry(name: seq<byte>, modified: nat, size: nat)

  /** `stat -c '%Y %n' | sort -n`: oldest first. */
  predicate Older(a: Entry, b: Entry) {
    a.modified < b.modified || (a.modified == b.modified && !Less(b.name, a.name))
  }

  lemma OlderIsTotal()
    ensures Total(Older)
  {
    forall a, b ensures Older(a, b) || Older(b, a) {
      LessIsTotal(a.name, b.name);
      if Less(a.name, b.name) && Less(b.name, a.name) {
        LessIsTransitive(a.name, b.name, a.name);
        LessIsIrreflexive(a.name);
      }
    }
    forall a, b, c | Older(a, b) && Older(b, c) ensures Older(a, c) {
      if Less(c.name, a.name) {
        LessIsTotal(a.name, b.name);
        if Less(a.name, b.name) {
          LessIsTransitive(c.name, a.name, b.name);
        }
      }
    }
  }

  function Size(entries: seq<Entry>): nat {
    if entries == [] then 0 else entries[0].size + Size(entries[1..])
  }

  lemma {:induction false} SizeSplit(a: seq<Entry>, b: seq<Entry>)
    ensures Size(a + b) == Size(a) + Size(b)
  {
    if a == [] {
      assert a + b == b;
    } else {
      assert (a + b)[1..] == a[1..] + b;
      SizeSplit(a[1..], b);
    }
  }

  /** Those confirmed to be on S3, or those not, in order. */
  function Pick(entries: seq<Entry>, onS3: set<seq<byte>>, confirmed: bool): seq<Entry> {
    if entries == [] then []
    else
      var last := entries[|entries| - 1];
      Pick(entries[..|entries| - 1], onS3, confirmed) + if (last.name in onS3) == confirmed then [last] else []
  }

  lemma {:induction false} PickPartitions(entries: seq<Entry>, onS3: set<seq<byte>>)
    ensures multiset(Pick(entries, onS3, true)) + multiset(Pick(entries, onS3, false)) == multiset(entries)
  {
    if entries != [] {
      var before, last := entries[..|entries| - 1], entries[|entries| - 1];
      PickPartitions(before, onS3);
      assert entries == before + [last];
      PickedOne(before, last, onS3, true);
      PickedOne(before, last, onS3, false);
    }
  }

  lemma PickedOne(before: seq<Entry>, last: Entry, onS3: set<seq<byte>>, confirmed: bool)
    ensures multiset(Pick(before + [last], onS3, confirmed))
         == multiset(Pick(before, onS3, confirmed)) + if (last.name in onS3) == confirmed then multiset{last} else multiset{}
  {
    assert (before + [last])[..|before|] == before;
    var picked := Pick(before, onS3, confirmed);
    assert multiset(picked + [last]) == multiset(picked) + multiset{last};
    assert picked + [] == picked;
  }

  lemma {:induction false} PickSizes(entries: seq<Entry>, onS3: set<seq<byte>>)
    ensures Size(Pick(entries, onS3, true)) + Size(Pick(entries, onS3, false)) == Size(entries)
  {
    if entries != [] {
      var before, last := entries[..|entries| - 1], entries[|entries| - 1];
      PickSizes(before, onS3);
      assert entries == before + [last];
      SizeSplit(before, [last]);
      PickedSize(before, last, onS3, true);
      PickedSize(before, last, onS3, false);
    }
  }

  lemma PickedSize(before: seq<Entry>, last: Entry, onS3: set<seq<byte>>, confirmed: bool)
    ensures Size(Pick(before + [last], onS3, confirmed))
         == Size(Pick(before, onS3, confirmed)) + if (last.name in onS3) == confirmed then Size([last]) else 0
  {
    assert (before + [last])[..|before|] == before;
    SizeSplit(Pick(before, onS3, confirmed), [last]);
    SizeSplit(Pick(before, onS3, confirmed), []);
  }

  lemma {:induction false} PickNames(entries: seq<Entry>, onS3: set<seq<byte>>, confirmed: bool)
    ensures forall e | e in Pick(entries, onS3, confirmed) :: (e.name in onS3) == confirmed
  {
    if entries != [] {
      PickNames(entries[..|entries| - 1], onS3, confirmed);
    }
  }

  /** What a pass measures after its first `i` directories. */
  lemma Measure(order: seq<Entry>, onS3: set<seq<byte>>, i: nat)
    requires i <= |order|
    ensures Size(Pick(order[..i], onS3, false) + order[i..]) == Size(order) - Size(Pick(order[..i], onS3, true))
  {
    assert order == order[..i] + order[i..];
    PickSizes(order[..i], onS3);
    SizeSplit(order[..i], order[i..]);
    SizeSplit(Pick(order[..i], onS3, false), order[i..]);
  }

  lemma {:induction false} PickIsPrefix(a: seq<Entry>, b: seq<Entry>, onS3: set<seq<byte>>)
    ensures Pick(a, onS3, true) <= Pick(a + b, onS3, true)
    decreases b
  {
    if b == [] {
      assert a + b == a;
    } else {
      assert (a + b)[..|a + b| - 1] == a + b[..|b| - 1];
      PickIsPrefix(a, b[..|b| - 1], onS3);
    }
  }

  /** What is there to evict, oldest first. */
  function Candidates(entries: seq<Entry>, onS3: set<seq<byte>>): seq<Entry> {
    Pick(Sort(Older, entries), onS3, true)
  }

  /** Nothing less than `removed` was enough. */
  predicate Needed(total: nat, threshold: nat, removed: seq<Entry>) {
    forall k | 0 <= k < |removed| :: total - Size(removed[..k]) > threshold
  }

  lemma NeedsOneMore(total: nat, threshold: nat, removed: seq<Entry>, e: Entry)
    requires Needed(total, threshold, removed) && total - Size(removed) > threshold
    ensures Needed(total, threshold, removed + [e])
  {
    forall k | 0 <= k < |removed + [e]| ensures total - Size((removed + [e])[..k]) > threshold {
      assert (removed + [e])[..k] == removed[..k];
      assert k == |removed| ==> removed[..k] == removed;
    }
  }

  /** `removed` is the shortest oldest-first prefix of the candidates that gets to the threshold, or all of them. */
  predicate ShortestPrefix(entries: seq<Entry>, onS3: set<seq<byte>>, fixed: nat, threshold: nat, removed: seq<Entry>) {
    && removed <= Candidates(entries, onS3)
    && Needed(fixed + Size(entries), threshold, removed)
    && (fixed + Size(entries) - Size(removed) <= threshold || removed == Candidates(entries, onS3))
  }

  /**
    * The script of a pass. `entries` are the directories, `fixed` is the weight of anything else named
    * `sha256_*`, `onS3` are the names that `mc stat` confirms.
    */
  method Pass(entries: seq<Entry>, onS3: set<seq<byte>>, fixed: nat, threshold: nat)
    returns (kept: seq<Entry>, removed: seq<Entry>)
    ensures multiset(kept) + multiset(removed) == multiset(entries)
    ensures forall e | e in removed :: e.name in onS3
    ensures fixed + Size(kept) <= threshold || forall e | e in kept :: e.name !in onS3
    ensures ShortestPrefix(entries, onS3, fixed, threshold, removed)
    ensures forall r, k | r in removed && k in kept && k.name in onS3 :: r.modified <= k.modified
  {
    SizeOfSort(entries);
    var current := fixed + Size(entries);
    if current <= threshold {
      return entries, [];
    }
    var order := Sort(Older, entries);
    var i := 0;
    var skipped: seq<Entry> := [];
    removed := [];
    while i < |order|
      invariant 0 <= i <= |order|
      invariant removed == Pick(order[..i], onS3, true) && skipped == Pick(order[..i], onS3, false)
      invariant Needed(fixed + Size(entries), threshold, removed)
    {
      Measure(order, onS3, i);
      current := fixed + Size(skipped + order[i..]);
      if current <= threshold {
        break;
      }
      PickStep(order, onS3, i, true);
      PickStep(order, onS3, i, false);
      NeedsOneMore(fixed + Size(entries), threshold, removed, order[i]);
      if order[i].name in onS3 {
        removed := removed + [order[i]];
      } else {
        skipped := skipped + [order[i]];
      }
      i := i + 1;
    }
    kept := skipped + order[i..];
    OlderIsTotal();
    SortSorts(Older, entries);
    Measure(order, onS3, i);
    Partition(order, onS3, i);
    Outcome(order, onS3, i);
    OldestGo(order, onS3, i);
  }

  /** What is removed of a sorted list is no newer than what is kept and could have been removed. */
  lemma OldestGo(order: seq<Entry>, onS3: set<seq<byte>>, i: nat)
    requires i <= |order| && Sorted(Older, order)
    ensures forall r, k | r in Pick(order[..i], onS3, true) && k in Pick(order[..i], onS3, false) + order[i..] && k.name in onS3 ::
              r.modified <= k.modified
  {
    forall r, k | r in Pick(order[..i], onS3, true) && k in Pick(order[..i], onS3, false) + order[i..] && k.name in onS3
      ensures r.modified <= k.modified
    {
      PickedFrom(order[..i], onS3, r);
      PickNames(order[..i], onS3, false);
      var a :| 0 <= a < i && order[a] == r;
      var b :| i <= b < |order| && order[b] == k;
      assert Older(order[a], order[b]);
    }
  }

  lemma PickStep(order: seq<Entry>, onS3: set<seq<byte>>, i: nat, confirmed: bool)
    requires i < |order|
    ensures Pick(order[..i + 1], onS3, confirmed)
         == Pick(order[..i], onS3, confirmed) + if (order[i].name in onS3) == confirmed then [order[i]] else []
  {
    assert order[..i + 1][..i] == order[..i];
  }

  lemma Partition(order: seq<Entry>, onS3: set<seq<byte>>, i: nat)
    requires i <= |order|
    ensures multiset(Pick(order[..i], onS3, false) + order[i..]) + multiset(Pick(order[..i], onS3, true)) == multiset(order)
  {
    assert order == order[..i] + order[i..];
    PickPartitions(order[..i], onS3);
  }

  lemma Outcome(order: seq<Entry>, onS3: set<seq<byte>>, i: nat)
    requires i <= |order|
    ensures Pick(order[..i], onS3, true) <= Pick(order, onS3, true)
    ensures forall e | e in Pick(order[..i], onS3, true) :: e.name in onS3
    ensures i == |order| ==> Pick(order[..i], onS3, true) == Pick(order, onS3, true)
    ensures i == |order| ==> forall e | e in Pick(order[..i], onS3, false) + order[i..] :: e.name !in onS3
  {
    assert order == order[..i] + order[i..];
    assert order[..|order|] == order;
    PickIsPrefix(order[..i], order[i..], onS3);
    PickNames(order[..i], onS3, true);
    PickNames(order[..i], onS3, false);
  }

  lemma {:induction false} SizeOfSort(entries: seq<Entry>)
    ensures Size(Sort(Older, entries)) == Size(entries)
  {
    if entries != [] {
      SizeOfSort(entries[1..]);
      SizeOfInsert(entries[0], Sort(Older, entries[1..]));
    }
  }

  lemma {:induction false} SizeOfInsert(e: Entry, entries: seq<Entry>)
    ensures Size(Insert(Older, e, entries)) == e.size + Size(entries)
  {
    if entries == [] || Older(e, entries[0]) {
      assert ([e] + entries)[1..] == entries;
    } else {
      SizeOfInsert(e, entries[1..]);
      assert ([entries[0]] + Insert(Older, e, entries[1..]))[1..] == Insert(Older, e, entries[1..]);
    }
  }

  /** The candidates are the confirmed entries, the oldest first. */
  lemma CandidatesAreOldestFirst(entries: seq<Entry>, onS3: set<seq<byte>>)
    ensures Sorted(Older, Candidates(entries, onS3))
    ensures forall e :: e in Candidates(entries, onS3) <==> e in entries && e.name in onS3
  {
    OlderIsTotal();
    SortSorts(Older, entries);
    var order := Sort(Older, entries);
    PickSorted(order, onS3);
    PickNames(order, onS3, true);
    PickNames(order, onS3, false);
    PickPartitions(order, onS3);
    forall e ensures e in Candidates(entries, onS3) <==> e in entries && e.name in onS3 {
      assert e in entries <==> e in multiset(entries);
      assert e in Pick(order, onS3, true) <==> e in multiset(Pick(order, onS3, true));
      assert e in Pick(order, onS3, false) <==> e in multiset(Pick(order, onS3, false));
    }
  }

  lemma {:induction false} PickSorted(order: seq<Entry>, onS3: set<seq<byte>>)
    requires Sorted(Older, order)
    ensures Sorted(Older, Pick(order, onS3, true))
  {
    if order != [] {
      var before, last := order[..|order| - 1], order[|order| - 1];
      PickSorted(before, onS3);
      forall e | e in Pick(before, onS3, true) ensures Older(e, last) {
        PickedFrom(before, onS3, e);
        var k :| 0 <= k < |before| && before[k] == e;
        assert order[k] == e;
      }
    }
  }

  lemma PickedFrom(entries: seq<Entry>, onS3: set<seq<byte>>, e: Entry)
    requires e in Pick(entries, onS3, true)
    ensures e in entries
  {
    PickPartitions(entries, onS3);
    assert e in multiset(Pick(entries, onS3, true));
    assert e in multiset(entries);
  }

  /** So the outcome of a pass is determined: there is only one such prefix. */
  lemma ShortestPrefixIsUnique(entries: seq<Entry>, onS3: set<seq<byte>>, fixed: nat, threshold: nat, a: seq<Entry>, b: seq<Entry>)
    requires ShortestPrefix(entries, onS3, fixed, threshold, a) && ShortestPrefix(entries, onS3, fixed, threshold, b)
    ensures a == b
  {
    var c := Candidates(entries, onS3);
    assert a == c[..|a|] && b == c[..|b|];
    assert |a| <= |b| ==> b[..|a|] == a;
    assert |b| <= |a| ==> a[..|b|] == b;
  }

  // ----- One pass at a time -----

  datatype Condition = Condition(kind: string, status: string)
  datatype Job = Job(conditions: seq<Condition>)

  predicate Finished(job: Job) {
    exists c | c in job.conditions :: (c.kind == "Complete" || c.kind == "Failed") && c.status == "True"
  }

  predicate HasActiveJob(jobs: seq<Job>) {
    exists job | job in jobs :: !Finished(job)
  }

  /** A job is finished exactly when it is complete, or has failed, for good. */
  lemma FinishedExactlyWhen(conditions: seq<Condition>)
    ensures Finished(Job(conditions)) <==>
              Condition("Complete", "True") in conditions || Condition("Failed", "True") in conditions
  {
    forall c | c in conditions && (c.kind == "Complete" || c.kind == "Failed") && c.status == "True"
      ensures c == Condition("Complete", "True") || c == Condition("Failed", "True")
    {
    }
  }

  function ActiveJobs(jobs: seq<Job>): nat {
    if jobs == [] then 0 else ActiveJobs(jobs[..|jobs| - 1]) + if Finished(jobs[|jobs| - 1]) then 0 else 1
  }

  /** The eviction jobs in the cluster, and whether the controller has just seen that none is active. */
  datatype Cluster = Cluster(jobs: seq<Job>, cleared: bool)

  datatype Step =
    | ListJobs                                        // the guard of a tick
    | CreateJob                                       // the rest of that tick
    | Report(i: nat, conditions: seq<Condition>)      // Kubernetes updates a job
    | Collect(i: nat)                                 // and forgets one that has finished

  function Next(c: Cluster, s: Step): Cluster {
    match s
    case ListJobs => c.(cleared := !HasActiveJob(c.jobs))
    case CreateJob => if c.cleared then Cluster(c.jobs + [Job([])], false) else c
    case Report(i, conditions) =>
      if i < |c.jobs| && (Finished(c.jobs[i]) ==> Finished(Job(conditions)))
      then c.(jobs := c.jobs[i := Job(conditions)]) else c
    case Collect(i) =>
      if i < |c.jobs| && Finished(c.jobs[i]) then c.(jobs := c.jobs[..i] + c.jobs[i + 1..]) else c
  }

  function RunSteps(steps: seq<Step>): Cluster {
    if steps == [] then Cluster([], false) else Next(RunSteps(steps[..|steps| - 1]), steps[|steps| - 1])
  }

  lemma {:induction false} ActiveSplit(a: seq<Job>, b: seq<Job>)
    ensures ActiveJobs(a + b) == ActiveJobs(a) + ActiveJobs(b)
    decreases b
  {
    if b == [] {
      assert a + b == a;
    } else {
      assert (a + b)[..|a + b| - 1] == a + b[..|b| - 1];
      ActiveSplit(a, b[..|b| - 1]);
    }
  }

  lemma {:induction false} ActiveIsCounted(jobs: seq<Job>)
    ensures HasActiveJob(jobs) <==> ActiveJobs(jobs) > 0
  {
    if jobs != [] {
      var before := jobs[..|jobs| - 1];
      ActiveIsCounted(before);
      assert jobs == before + [jobs[|jobs| - 1]];
    }
  }

  lemma ActiveOne(job: Job)
    ensures ActiveJobs([job]) == if Finished(job) then 0 else 1
  {
    assert [job][..0] == [];
  }

  predicate AtMostOne(c: Cluster) {
    ActiveJobs(c.jobs) <= if c.cleared then 0 else 1
  }

  lemma NextKeepsAtMostOne(c: Cluster, s: Step)
    requires AtMostOne(c)
    ensures AtMostOne(Next(c, s))
  {
    ActiveIsCounted(c.jobs);
    if s.CreateJob? && c.cleared {
      ActiveSplit(c.jobs, [Job([])]);
      ActiveOne(Job([]));
    } else if s.Report? && s.i < |c.jobs| {
      ActiveAround(c.jobs, s.i, Job(s.conditions));
    } else if s.Collect? && s.i < |c.jobs| {
      ActiveAround(c.jobs, s.i, c.jobs[s.i]);
    }
  }

  lemma ActiveAround(jobs: seq<Job>, i: nat, now: Job)
    requires i < |jobs|
    ensures var others := ActiveJobs(jobs[..i] + jobs[i + 1..]);
            && ActiveJobs(jobs) == others + (if Finished(jobs[i]) then 0 else 1)
            && ActiveJobs(jobs[i := now]) == others + (if Finished(now) then 0 else 1)
  {
    var before, after := jobs[..i], jobs[i + 1..];
    ActiveSplit(before, after);
    ActiveInsert(before, jobs[i], after);
    ActiveInsert(before, now, after);
    assert jobs == before + ([jobs[i]] + after) && jobs[i := now] == before + ([now] + after);
  }

  lemma ActiveInsert(before: seq<Job>, job: Job, after: seq<Job>)
    ensures ActiveJobs(before + ([job] + after)) == ActiveJobs(before) + ActiveJobs(after) + if Finished(job) then 0 else 1
  {
    ActiveSplit(before, [job] + after);
    ActiveSplit([job], after);
    ActiveOne(job);
  }

  /** A tick starts one job when none is active, and none otherwise. */
  lemma TickStartsAJob(c: Cluster)
    ensures var t := Next(Next(c, ListJobs), CreateJob);
            if ActiveJobs(c.jobs) == 0 then t.jobs == c.jobs + [Job([])] && ActiveJobs(t.jobs) == 1 else t.jobs == c.jobs
  {
    ActiveIsCounted(c.jobs);
    ActiveSplit(c.jobs, [Job([])]);
    ActiveOne(Job([]));
  }

  /** In every run of ticks of one controller, at most one eviction job is unfinished. */
  lemma {:induction false} AtMostOneActiveJob(steps: seq<Step>)
    ensures ActiveJobs(RunSteps(steps).jobs) <= 1 && AtMostOne(RunSteps(steps))
  {
    if steps != [] {
      AtMostOneActiveJob(steps[..|steps| - 1]);
      NextKeepsAtMostOne(RunSteps(steps[..|steps| - 1]), steps[|steps| - 1]);
    }
  }
}
