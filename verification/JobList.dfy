/** The daemon's job table and the listing of it, which must not depend on the table's iteration order. */
module JobList {
  import opened Std
  import opened Protocol

  datatype JobRecord = JobRecord(state: JobState, message: Option<string>, createdAtUnixMs: u64, updatedAtUnixMs: u64)

  type JobTable = map<string, JobRecord>

  // The order of a listing.

  /** Strings by their first differing character, a prefix coming first. */
  predicate TextBefore(a: string, b: string) {
    b != "" && (a == "" || a[0] < b[0] || (a[0] == b[0] && TextBefore(a[1..], b[1..])))
  }

  lemma {:induction false} TextOrder(a: string, b: string)
    ensures !TextBefore(a, a)
    ensures TextBefore(a, b) ==> !TextBefore(b, a)
    ensures a != b ==> TextBefore(a, b) || TextBefore(b, a)
    decreases |a|
  {
    if a != "" {
      TextOrder(a[1..], if b == "" then "" else b[1..]);
      assert b != "" && a[0] == b[0] && a[1..] == b[1..] ==> a == [a[0]] + a[1..] == b;
    }
  }

  /** After the longest common beginning, the first text ends or goes on with the smaller character. */
  predicate DiffersAt(a: string, b: string, k: nat) {
    k <= |a| && k < |b| && (forall i :: 0 <= i < k ==> a[i] == b[i]) && (k == |a| || a[k] < b[k])
  }

  lemma {:induction false} TextBeforeIff(a: string, b: string)
    ensures TextBefore(a, b) <==> exists k: nat :: DiffersAt(a, b, k)
    decreases |a|
  {
    if a != "" && b != "" && a[0] == b[0] {
      TextBeforeIff(a[1..], b[1..]);
      if TextBefore(a[1..], b[1..]) {
        var k: nat :| DiffersAt(a[1..], b[1..], k);
        assert forall i :: 1 <= i < k + 1 ==> a[i] == a[1..][i - 1] && b[i] == b[1..][i - 1];
        assert DiffersAt(a, b, k + 1);
      }
      if exists k: nat :: DiffersAt(a, b, k) {
        var k: nat :| DiffersAt(a, b, k);
        assert DiffersAt(a[1..], b[1..], k - 1);
      }
    } else {
      FirstDiffers(a, b);
    }
  }

  lemma FirstDiffers(a: string, b: string)
    requires a == "" || b == "" || a[0] != b[0]
    ensures TextBefore(a, b) <==> exists k: nat :: DiffersAt(a, b, k)
  {
    if TextBefore(a, b) {
      assert DiffersAt(a, b, 0);
    }
  }

  lemma {:induction false} TextTransitive(a: string, b: string, c: string)
    requires TextBefore(a, b) && TextBefore(b, c)
    ensures TextBefore(a, c)
    decreases |a|
  {
    if a != "" && a[0] == b[0] && b[0] == c[0] {
      TextTransitive(a[1..], b[1..], c[1..]);
    }
  }

  /** Newest first, then by identifier. */
  predicate Before(a: JobSummary, b: JobSummary) {
    a.createdAtUnixMs > b.createdAtUnixMs || (a.createdAtUnixMs == b.createdAtUnixMs && TextBefore(a.jobId, b.jobId))
  }

  predicate Sorted(s: seq<JobSummary>) {
    forall i, j :: 0 <= i < j < |s| ==> Before(s[i], s[j])
  }

  // What is listed.

  function SummaryOf(jobs: JobTable, id: string): JobSummary
    requires id in jobs
  {
    var job := jobs[id];
    JobSummary(id, job.state, job.message, job.createdAtUnixMs, job.updatedAtUnixMs)
  }

  predicate Selected(jobs: JobTable, filter: Option<JobState>, id: string) {
    id in jobs && (filter.None? || jobs[id].state == filter.value)
  }

  function Matching(jobs: JobTable, filter: Option<JobState>): set<string> {
    set id | id in jobs && Selected(jobs, filter, id)
  }

  /** `full` lists exactly the jobs `ids`, in order. */
  predicate IsRanking(full: seq<JobSummary>, jobs: JobTable, ids: set<string>) {
    Sorted(full)
    && (forall i :: 0 <= i < |full| ==> full[i].jobId in ids && full[i].jobId in jobs && full[i] == SummaryOf(jobs, full[i].jobId))
    && (forall id :: id in ids ==> Lists(full, id))
  }

  predicate Lists(full: seq<JobSummary>, id: string) {
    exists i :: 0 <= i < |full| && full[i].jobId == id
  }

  function Saturated(n: nat): u32 {
    if n <= U32_MAX then n else U32_MAX
  }

  /** No limit means 100; no request gets more than 1000. */
  function EffectiveLimit(limit: u32): nat {
    if limit == 0 then 100 else if limit < 1000 then limit else 1000
  }

  function Truncated(full: seq<JobSummary>, limit: nat): seq<JobSummary> {
    if |full| <= limit then full else full[..limit]
  }

  ghost predicate IsListing(listed: seq<JobSummary>, total: u32, jobs: JobTable, filter: Option<JobState>, limit: u32) {
    total == Saturated(|Matching(jobs, filter)|)
    && exists full :: IsRanking(full, jobs, Matching(jobs, filter)) && listed == Truncated(full, EffectiveLimit(limit))
  }

  // The loops.

  /** Puts `s` where it belongs. */
  method Insert(ranked: seq<JobSummary>, s: JobSummary) returns (r: seq<JobSummary>)
    requires Sorted(ranked) && forall i :: 0 <= i < |ranked| ==> ranked[i].jobId != s.jobId
    ensures exists k :: 0 <= k <= |ranked| && r == ranked[..k] + [s] + ranked[k..]
    ensures Sorted(r)
  {
    var k := 0;
    while k < |ranked| && Before(ranked[k], s)
      invariant 0 <= k <= |ranked|
      invariant forall i :: 0 <= i < k ==> Before(ranked[i], s)
    {
      k := k + 1;
    }
    forall i | k <= i < |ranked| ensures Before(s, ranked[i]) {
      TextOrder(s.jobId, ranked[k].jobId);
      assert Before(s, ranked[k]);
      if i > k {
        BeforeTransitive(s, ranked[k], ranked[i]);
      }
    }
    r := ranked[..k] + [s] + ranked[k..];
  }

  lemma BeforeTransitive(a: JobSummary, b: JobSummary, c: JobSummary)
    requires Before(a, b) && Before(b, c)
    ensures Before(a, c)
  {
    if TextBefore(a.jobId, b.jobId) && TextBefore(b.jobId, c.jobId) {
      TextTransitive(a.jobId, b.jobId, c.jobId);
    }
  }

  /** The selected jobs outside `remaining` have been collected. */
  predicate Collected(summaries: seq<JobSummary>, jobs: JobTable, filter: Option<JobState>, remaining: set<string>) {
    var taken := Matching(jobs, filter) - remaining;
    remaining <= jobs.Keys && IsRanking(summaries, jobs, taken) && |summaries| == |taken|
  }

  lemma CollectedSkip(summaries: seq<JobSummary>, jobs: JobTable, filter: Option<JobState>, remaining: set<string>, id: string)
    requires Collected(summaries, jobs, filter, remaining) && id in remaining && !Selected(jobs, filter, id)
    ensures Collected(summaries, jobs, filter, remaining - {id})
  {
    assert Matching(jobs, filter) - (remaining - {id}) == Matching(jobs, filter) - remaining;
  }

  lemma CollectedInsert(before: seq<JobSummary>, after: seq<JobSummary>, jobs: JobTable, filter: Option<JobState>,
                        remaining: set<string>, id: string)
    requires Collected(before, jobs, filter, remaining) && id in remaining && Selected(jobs, filter, id) && Sorted(after)
    requires exists k :: 0 <= k <= |before| && after == before[..k] + [SummaryOf(jobs, id)] + before[k..]
    ensures Collected(after, jobs, filter, remaining - {id})
  {
    var taken := Matching(jobs, filter) - remaining;
    assert Matching(jobs, filter) - (remaining - {id}) == taken + {id};
    RankingInsert(before, after, jobs, taken, id);
  }

  lemma CollectedNew(summaries: seq<JobSummary>, jobs: JobTable, filter: Option<JobState>, remaining: set<string>, id: string)
    requires Collected(summaries, jobs, filter, remaining) && id in remaining
    ensures Sorted(summaries) && forall i :: 0 <= i < |summaries| ==> summaries[i].jobId != id
  {
  }

  lemma CollectedAll(summaries: seq<JobSummary>, jobs: JobTable, filter: Option<JobState>, limit: u32)
    requires Collected(summaries, jobs, filter, {})
    ensures IsListing(Truncated(summaries, EffectiveLimit(limit)), Saturated(|summaries|), jobs, filter, limit)
  {
    assert Matching(jobs, filter) - {} == Matching(jobs, filter);
  }

  /** Collects the selected jobs in whatever order the table yields them, sorts and truncates. */
  method ListJobs(jobs: JobTable, filter: Option<JobState>, limit: u32) returns (listed: seq<JobSummary>, total: u32)
    ensures IsListing(listed, total, jobs, filter, limit)
  {
    var summaries: seq<JobSummary> := [];
    var remaining := jobs.Keys;
    assert Matching(jobs, filter) - jobs.Keys == {};
    while remaining != {}
      invariant Collected(summaries, jobs, filter, remaining)
      decreases |remaining|
    {
      var id :| id in remaining;
      if Selected(jobs, filter, id) {
        CollectedNew(summaries, jobs, filter, remaining, id);
        ghost var before := summaries;
        summaries := Insert(summaries, SummaryOf(jobs, id));
        CollectedInsert(before, summaries, jobs, filter, remaining, id);
      } else {
        CollectedSkip(summaries, jobs, filter, remaining, id);
      }
      remaining := remaining - {id};
    }
    CollectedAll(summaries, jobs, filter, limit);
    total := Saturated(|summaries|);
    listed := Truncated(summaries, EffectiveLimit(limit));
  }

  lemma RankingInsert(before: seq<JobSummary>, after: seq<JobSummary>, jobs: JobTable, ids: set<string>, id: string)
    requires IsRanking(before, jobs, ids) && id in jobs && id !in ids && Sorted(after)
    requires exists k :: 0 <= k <= |before| && after == before[..k] + [SummaryOf(jobs, id)] + before[k..]
    ensures IsRanking(after, jobs, ids + {id}) && |after| == |before| + 1
  {
    var k :| 0 <= k <= |before| && after == before[..k] + [SummaryOf(jobs, id)] + before[k..];
    forall x | x in ids + {id} ensures Lists(after, x) {
      if x == id {
        assert after[k].jobId == id;
      } else {
        assert Lists(before, x);
        var i :| 0 <= i < |before| && before[i].jobId == x;
        assert after[if i < k then i else i + 1] == before[i];
      }
    }
    forall i | 0 <= i < |after|
      ensures after[i].jobId in ids + {id} && after[i].jobId in jobs && after[i] == SummaryOf(jobs, after[i].jobId)
    {
      assert after[i] == if i < k then before[i] else if i == k then SummaryOf(jobs, id) else before[i - 1];
    }
  }

  // The listing is determined.

  lemma RankingTail(full: seq<JobSummary>, jobs: JobTable, ids: set<string>)
    requires IsRanking(full, jobs, ids) && full != []
    ensures IsRanking(full[1..], jobs, ids - {full[0].jobId})
  {
    var tail := full[1..];
    forall i | 0 <= i < |tail| ensures tail[i].jobId in ids - {full[0].jobId} {
      assert Before(full[0], full[i + 1]);
      TextOrder(full[0].jobId, full[0].jobId);
      assert tail[i] == SummaryOf(jobs, tail[i].jobId) && full[0] == SummaryOf(jobs, full[0].jobId);
    }
    forall id | id in ids - {full[0].jobId} ensures Lists(tail, id) {
      assert Lists(full, id);
      var i :| 0 <= i < |full| && full[i].jobId == id;
      assert tail[i - 1].jobId == id;
    }
  }

  lemma {:induction false} RankingSize(full: seq<JobSummary>, jobs: JobTable, ids: set<string>)
    requires IsRanking(full, jobs, ids)
    ensures |full| == |ids|
    decreases |full|
  {
    if full == [] {
      assert forall id :: id in ids ==> Lists(full, id);
      assert ids == {};
    } else {
      RankingTail(full, jobs, ids);
      RankingSize(full[1..], jobs, ids - {full[0].jobId});
    }
  }

  /** A table has one ranking. */
  lemma {:induction false} RankingUnique(a: seq<JobSummary>, b: seq<JobSummary>, jobs: JobTable, ids: set<string>)
    requires IsRanking(a, jobs, ids) && IsRanking(b, jobs, ids)
    ensures a == b
    decreases |a|
  {
    RankingSize(a, jobs, ids);
    RankingSize(b, jobs, ids);
    if a != [] {
      FirstAgrees(a, b, jobs, ids);
      RankingTail(a, jobs, ids);
      RankingTail(b, jobs, ids);
      RankingUnique(a[1..], b[1..], jobs, ids - {a[0].jobId});
      assert a == [a[0]] + a[1..] && b == [b[0]] + b[1..];
    }
  }

  lemma FirstAgrees(a: seq<JobSummary>, b: seq<JobSummary>, jobs: JobTable, ids: set<string>)
    requires IsRanking(a, jobs, ids) && IsRanking(b, jobs, ids) && a != [] && b != []
    ensures a[0] == b[0]
  {
    assert Lists(b, a[0].jobId) && Lists(a, b[0].jobId);
    var i :| 0 <= i < |b| && b[i].jobId == a[0].jobId;
    var j :| 0 <= j < |a| && a[j].jobId == b[0].jobId;
    assert b[i] == a[0] && a[j] == b[0];
    if i > 0 && j > 0 {
      assert Before(b[0], b[i]) && Before(a[0], a[j]);
      TextOrder(a[0].jobId, b[0].jobId);
    }
  }

  /** Two listings of the same table for the same question are the same listing. */
  lemma ListingUnique(a: seq<JobSummary>, b: seq<JobSummary>, m: u32, n: u32, jobs: JobTable, filter: Option<JobState>, limit: u32)
    requires IsListing(a, m, jobs, filter, limit) && IsListing(b, n, jobs, filter, limit)
    ensures a == b && m == n
  {
    var ids := Matching(jobs, filter);
    var full: seq<JobSummary> :| IsRanking(full, jobs, ids) && a == Truncated(full, EffectiveLimit(limit));
    var other: seq<JobSummary> :| IsRanking(other, jobs, ids) && b == Truncated(other, EffectiveLimit(limit));
    RankingUnique(full, other, jobs, ids);
  }

  /** Created later, or at the same time and with the smaller identifier. */
  predicate Newer(a: JobRecord, id: string, b: JobRecord, other: string) {
    a.createdAtUnixMs > b.createdAtUnixMs || (a.createdAtUnixMs == b.createdAtUnixMs && TextBefore(id, other))
  }

  /**
   A listing holds the newest of the jobs in the asked state, at most as many as asked for, 100 when none
   are and never more than 1000, newest first and then by identifier, each with what the table has of it;
   the total counts all of them.
   */
  lemma ListingIsTop(listed: seq<JobSummary>, total: u32, jobs: JobTable, filter: Option<JobState>, limit: u32)
    requires IsListing(listed, total, jobs, filter, limit)
    ensures var ids := set id | id in jobs && (filter.None? || jobs[id].state == filter.value);
      var most := if limit == 0 then 100 else if limit > 1000 then 1000 else limit;
      && |listed| == (if |ids| <= most then |ids| else most)
      && total == (if |ids| <= 0xFFFF_FFFF then |ids| else 0xFFFF_FFFF)
      && (forall i :: 0 <= i < |listed| ==>
            && listed[i].jobId in ids
            && listed[i].state == jobs[listed[i].jobId].state && listed[i].message == jobs[listed[i].jobId].message
            && listed[i].createdAtUnixMs == jobs[listed[i].jobId].createdAtUnixMs
            && listed[i].updatedAtUnixMs == jobs[listed[i].jobId].updatedAtUnixMs)
      && (forall i, j :: 0 <= i < j < |listed| ==> Newer(jobs[listed[i].jobId], listed[i].jobId, jobs[listed[j].jobId], listed[j].jobId))
      && (forall id, i :: id in ids && !Lists(listed, id) && 0 <= i < |listed| ==> Newer(jobs[listed[i].jobId], listed[i].jobId, jobs[id], id))
  {
    var ids := Matching(jobs, filter);
    assert ids == set id | id in jobs && (filter.None? || jobs[id].state == filter.value);
    var full: seq<JobSummary> :| IsRanking(full, jobs, ids) && listed == Truncated(full, EffectiveLimit(limit));
    RankingSize(full, jobs, ids);
    assert forall i :: 0 <= i < |listed| ==> listed[i] == full[i];
    forall i, j | 0 <= i < j < |listed|
      ensures Newer(jobs[listed[i].jobId], listed[i].jobId, jobs[listed[j].jobId], listed[j].jobId)
    {
      assert Before(full[i], full[j]);
    }
    forall id, i | id in ids && !Lists(listed, id) && 0 <= i < |listed|
      ensures Newer(jobs[listed[i].jobId], listed[i].jobId, jobs[id], id)
    {
      assert Lists(full, id);
      var k :| 0 <= k < |full| && full[k].jobId == id;
      assert k >= |listed|;
      assert Before(full[i], full[k]);
    }
  }
}
