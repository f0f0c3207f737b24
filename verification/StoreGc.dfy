/** Cache eviction (store.rs gc): least recently used first, blob before metadata,
    and stopping when evicting does not free anything. */
module StoreGc {
  import opened Basics

  type Key = string

  /** What is recorded about a blob. */
  datatype Entry = Entry(key: Key, lastUsed: nat, actualBytes: nat)

  /** A blob on disk: its footprint now, and how many names it has. */
  datatype Blob = Blob(bytes: nat, links: nat)

  datatype Policy = Policy(maxBytes: Option<nat>, keepSecs: Option<nat>, dryRun: bool)

  /** What the file system will answer: blobs and metadata files it will not
      remove, and the free space it reports from one call to the next. */
  datatype World = World(busy: set<Key>, stuck: set<Key>, free: seq<Option<nat>>)

  datatype Report = Report(removed: seq<Key>, keptLinked: nat, keptBusy: seq<Key>, freedBytes: nat, totalBefore: nat, dryRun: bool,
                           stoppedEarly: bool, lastFree: Option<nat>)

  // ---- Order and size ----

  predicate OldestFirst(es: seq<Entry>) {
    forall j, k :: 0 <= j < k < |es| ==> es[j].lastUsed <= es[k].lastUsed
  }

  predicate DistinctKeys(es: seq<Entry>) {
    forall j, k :: 0 <= j < k < |es| ==> es[j].key != es[k].key
  }

  function InsertEntry(sorted: seq<Entry>, e: Entry): (r: seq<Entry>)
    ensures |r| == |sorted| + 1
  {
    if sorted == [] then [e]
    else
      var last := sorted[|sorted| - 1];
      if last.lastUsed <= e.lastUsed then sorted + [e] else InsertEntry(sorted[..|sorted| - 1], e) + [last]
  }

  /** `sort_by_key` on the time of last use. */
  function SortByAge(es: seq<Entry>): (r: seq<Entry>)
    ensures |r| == |es|
  {
    if es == [] then [] else InsertEntry(SortByAge(es[..|es| - 1]), es[|es| - 1])
  }

  predicate UsedBefore(es: seq<Entry>, time: nat) {
    forall k :: 0 <= k < |es| ==> es[k].lastUsed <= time
  }

  lemma OrderSnoc(es: seq<Entry>, e: Entry)
    ensures OldestFirst(es + [e]) <==> OldestFirst(es) && UsedBefore(es, e.lastUsed)
  {
    var all := es + [e];
    assert forall k :: 0 <= k < |es| ==> all[k] == es[k];
    if OldestFirst(all) {
      forall k | 0 <= k < |es| ensures es[k].lastUsed <= e.lastUsed {
        assert all[k].lastUsed <= all[|es|].lastUsed;
      }
    }
  }

  lemma InsertCases(sorted: seq<Entry>, e: Entry)
    ensures sorted == [] ==> InsertEntry(sorted, e) == [e]
    ensures sorted != [] ==>
      var n := |sorted| - 1;
      InsertEntry(sorted, e)
      == if sorted[n].lastUsed <= e.lastUsed then sorted + [e] else InsertEntry(sorted[..n], e) + [sorted[n]]
  {
  }

  lemma UsedBeforeSnoc(es: seq<Entry>, e: Entry, time: nat)
    ensures UsedBefore(es + [e], time) <==> UsedBefore(es, time) && e.lastUsed <= time
  {
    var all := es + [e];
    assert forall k :: 0 <= k < |es| ==> all[k] == es[k];
    assert all[|es|] == e;
  }

  lemma UsedBeforeLater(es: seq<Entry>, time: nat, later: nat)
    requires UsedBefore(es, time) && time <= later
    ensures UsedBefore(es, later)
  {
  }

  lemma OneInOrder(e: Entry)
    ensures OldestFirst([e]) && UsedBefore([], e.lastUsed) && OldestFirst([])
  {
  }

  lemma {:induction false} InsertEntrySorts(sorted: seq<Entry>, e: Entry, time: nat)
    requires OldestFirst(sorted)
    ensures OldestFirst(InsertEntry(sorted, e))
    ensures multiset(InsertEntry(sorted, e)) == multiset(sorted) + multiset{e}
    ensures UsedBefore(sorted, time) && e.lastUsed <= time ==> UsedBefore(InsertEntry(sorted, e), time)
    decreases |sorted|
  {
    hide *;
    InsertCases(sorted, e);
    if sorted == [] {
      OneInOrder(e);
      UsedBeforeSnoc([], e, time);
      assert [] + [e] == [e];
    } else {
      var n := |sorted| - 1;
      var front, last := sorted[..n], sorted[n];
      assert sorted == front + [last];
      OrderSnoc(front, last);
      UsedBeforeSnoc(front, last, time);
      if last.lastUsed <= e.lastUsed {
        UsedBeforeLater(front, last.lastUsed, e.lastUsed);
        UsedBeforeSnoc(front, last, e.lastUsed);
        OrderSnoc(sorted, e);
        UsedBeforeSnoc(sorted, e, time);
      } else {
        InsertEntrySorts(front, e, last.lastUsed);
        InsertEntrySorts(front, e, time);
        OrderSnoc(InsertEntry(front, e), last);
        UsedBeforeSnoc(InsertEntry(front, e), last, time);
      }
    }
  }

  lemma {:induction false} SortByAgeSorts(es: seq<Entry>)
    ensures OldestFirst(SortByAge(es)) && multiset(SortByAge(es)) == multiset(es)
  {
    if es != [] {
      var n := |es| - 1;
      assert es == es[..n] + [es[n]];
      SortByAgeSorts(es[..n]);
      InsertEntrySorts(SortByAge(es[..n]), es[n], 0);
    }
  }

  /** What an entry takes up now: measured if its blob is there, else as recorded. */
  function Claim(blobs: map<Key, Blob>, e: Entry): nat {
    if e.key in blobs then blobs[e.key].bytes else e.actualBytes
  }

  function Claims(blobs: map<Key, Blob>, es: seq<Entry>): nat {
    if es == [] then 0 else Claims(blobs, es[..|es| - 1]) + Claim(blobs, es[|es| - 1])
  }

  function Keys(es: seq<Entry>): (ks: seq<Key>)
    ensures |ks| == |es|
  {
    seq(|es|, k requires 0 <= k < |es| => es[k].key)
  }

  function KeySet(es: seq<Entry>): set<Key> { set k | 0 <= k < |es| :: es[k].key }

  predicate Linked(blobs: map<Key, Blob>, e: Entry) { e.key in blobs && blobs[e.key].links > 1 }

  /** The removal of the blob would be refused. Removing a missing one is fine. */
  predicate Refused(blobs: map<Key, Blob>, policy: Policy, world: World, e: Entry) {
    !policy.dryRun && e.key in blobs && e.key in world.busy
  }

  /** Nothing keeps this entry from being evicted. */
  predicate Evictable(blobs: map<Key, Blob>, policy: Policy, world: World, e: Entry) {
    !Linked(blobs, e) && !Refused(blobs, policy, world, e)
  }

  function AllEvictable(blobs: map<Key, Blob>, policy: Policy, world: World, es: seq<Entry>): seq<Entry> {
    if es == [] then []
    else
      AllEvictable(blobs, policy, world, es[..|es| - 1])
      + if Evictable(blobs, policy, world, es[|es| - 1]) then [es[|es| - 1]] else []
  }

  predicate OverSize(policy: Policy, total: nat) { policy.maxBytes.Some? && total > policy.maxBytes.value }

  predicate TooOld(policy: Policy, now: nat, e: Entry) {
    policy.keepSecs.Some? && now > e.lastUsed && now - e.lastUsed > policy.keepSecs.value
  }

  // ---- One sweep over the entries ----

  /** What a sweep is given. */
  datatype Setting = Setting(policy: Policy, now: nat, world: World)

  /** Where a sweep stands: what is on disk, the running total, the entries evicted
      and the others, and how often free space has been measured. */
  datatype Sweep = Sweep(blobs: map<Key, Blob>, meta: map<Key, Entry>, total: nat, gone: seq<Entry>, left: seq<Entry>,
                         report: Report, readings: nat)

  /** The free space reported at the `k`-th call. */
  function Reading(world: World, k: nat): Option<nat> {
    if k < |world.free| then world.free[k] else None
  }

  /** `now.saturating_sub(before)`. */
  function Gain(now: int, before: int): nat { if now > before then now - before else 0 }

  /** freed_since: the gain since the last reading, and the reading to remember. */
  function FreedSince(last: Option<nat>, reading: Option<nat>): (Option<nat>, Option<nat>) {
    if reading.None? then (None, last)
    else if last.None? then (None, reading)
    else (Some(Gain(reading.value, last.value)), reading)
  }

  function WithoutFiles(s: Sweep, w: Setting, key: Key): Sweep {
    if w.policy.dryRun then s
    else s.(blobs := s.blobs - {key}, meta := if key in w.world.stuck then s.meta else s.meta - {key})
  }

  /** The no-progress rule applies, and the disk gained less than a quarter. */
  predicate NoProgress(s: Sweep, w: Setting, claimed: nat) {
    && !w.policy.dryRun && w.policy.maxBytes.Some? && claimed > 0
    && var freed := FreedSince(s.report.lastFree, Reading(w.world, s.readings)).0; freed.Some? && freed.value * 4 < claimed
  }

  function Measured(s: Sweep, w: Setting, claimed: nat): Sweep {
    if !w.policy.dryRun && w.policy.maxBytes.Some? && claimed > 0 then
      s.(readings := s.readings + 1,
         report := s.report.(lastFree := FreedSince(s.report.lastFree, Reading(w.world, s.readings)).1))
    else s
  }

  /** Evicting one entry. */
  function Evict(s: Sweep, w: Setting, e: Entry): Sweep {
    var claimed := Claim(s.blobs, e);
    var r := Measured(WithoutFiles(s, w, e.key), w, claimed);
    var stop := NoProgress(s, w, claimed);
    r.(gone := r.gone + [e],
       total := if stop then r.total else Gain(r.total, claimed),
       report := r.report.(removed := r.report.removed + [e.key], freedBytes := r.report.freedBytes + claimed, stoppedEarly := stop))
  }

  /** One entry of the sweep: nothing after an early stop; else skip what need not
      go, keep what is linked or refused, evict the rest. */
  function Visit(s: Sweep, w: Setting, e: Entry): Sweep {
    if s.report.stoppedEarly || (!OverSize(w.policy, s.total) && !TooOld(w.policy, w.now, e)) then s.(left := s.left + [e])
    else if Linked(s.blobs, e) then
      s.(left := s.left + [e], report := s.report.(keptLinked := s.report.keptLinked + 1))
    else if Refused(s.blobs, w.policy, w.world, e) then
      s.(left := s.left + [e], report := s.report.(keptBusy := s.report.keptBusy + [e.key]))
    else Evict(s, w, e)
  }

  function Swept(s: Sweep, w: Setting, es: seq<Entry>): Sweep {
    if es == [] then s else Visit(Swept(s, w, es[..|es| - 1]), w, es[|es| - 1])
  }

  function Start(blobs: map<Key, Blob>, meta: map<Key, Entry>, order: seq<Entry>, dryRun: bool): Sweep {
    var total := Claims(blobs, order);
    Sweep(blobs, meta, total, [], [], Report([], 0, [], 0, total, dryRun, false, None), 0)
  }

  // ---- Facts about lists of entries ----

  lemma ClaimsSnoc(blobs: map<Key, Blob>, es: seq<Entry>, e: Entry)
    ensures Claims(blobs, es + [e]) == Claims(blobs, es) + Claim(blobs, e)
  {
    assert (es + [e])[..|es|] == es;
  }

  lemma {:induction false} ClaimsOfFirst(blobs: map<Key, Blob>, es: seq<Entry>, k: nat)
    requires k <= |es|
    ensures Claims(blobs, es[..k]) <= Claims(blobs, es)
    decreases |es| - k
  {
    if k < |es| {
      ClaimsOfFirst(blobs, es, k + 1);
      ClaimsSnoc(blobs, es[..k], es[k]);
      assert es[..k + 1] == es[..k] + [es[k]];
    } else {
      assert es[..k] == es;
    }
  }

  lemma EvictableSnoc(blobs: map<Key, Blob>, w: Setting, es: seq<Entry>, e: Entry)
    ensures AllEvictable(blobs, w.policy, w.world, es + [e])
         == AllEvictable(blobs, w.policy, w.world, es) + if Evictable(blobs, w.policy, w.world, e) then [e] else []
  {
    assert (es + [e])[..|es|] == es;
  }

  lemma KeySetSnoc(es: seq<Entry>, e: Entry)
    ensures KeySet(es + [e]) == KeySet(es) + {e.key}
  {
    var all := es + [e];
    forall k ensures k in KeySet(all) <==> k in KeySet(es) || k == e.key {
      if k in KeySet(es) {
        var j :| 0 <= j < |es| && es[j].key == k;
        assert all[j].key == k;
      }
      assert all[|es|].key == e.key;
    }
  }

  // ---- What every sweep keeps ----

  /** Only evicted entries lose their files, metadata last, and what is evicted was
      neither linked nor refused. */
  ghost predicate FilesOk(s0: Sweep, s: Sweep, w: Setting) {
    && s.blobs == (if w.policy.dryRun then s0.blobs else s0.blobs - KeySet(s.gone))
    && s.meta == (if w.policy.dryRun then s0.meta else s0.meta - (KeySet(s.gone) - w.world.stuck))
    && s.report.removed == Keys(s.gone)
    && forall k :: 0 <= k < |s.gone| ==> Evictable(s0.blobs, w.policy, w.world, s.gone[k])
  }

  /** Evicted and left make up what was met, in number and in bytes. */
  ghost predicate SumsOk(s0: Sweep, s: Sweep, met: seq<Entry>) {
    && multiset(s.gone) + multiset(s.left) == multiset(met)
    && Claims(s0.blobs, s.gone) + Claims(s0.blobs, s.left) == Claims(s0.blobs, met)
    && s.report.freedBytes == Claims(s0.blobs, s.gone)
    && (!s.report.stoppedEarly ==> s.total == s0.total - Claims(s0.blobs, s.gone))
    && s.report.totalBefore == s0.report.totalBefore
  }

  /** Why an entry is left, short of an early stop. */
  predicate LeftFor(s0: Sweep, w: Setting, total: nat, e: Entry) {
    !Evictable(s0.blobs, w.policy, w.world, e) || (!TooOld(w.policy, w.now, e) && !OverSize(w.policy, total))
  }

  predicate LeftOk(s0: Sweep, s: Sweep, w: Setting) {
    s.report.stoppedEarly || forall k :: 0 <= k < |s.left| ==> LeftFor(s0, w, s.total, s.left[k])
  }

  /** With a size budget alone: the evicted entries are the first of the evictable
      ones, none more than needed, and none less. */
  predicate PrefixOk(s0: Sweep, s: Sweep, w: Setting, met: seq<Entry>) {
    var all, n := AllEvictable(s0.blobs, w.policy, w.world, met), |s.gone|;
    && s.gone <= all
    && (n > 0 ==> Claims(s0.blobs, s.gone[..n - 1]) <= s0.total
                  && OverSize(w.policy, s0.total - Claims(s0.blobs, s.gone[..n - 1])))
    && (s.report.stoppedEarly || s.gone == all || !OverSize(w.policy, s.total))
  }

  /** The space gained between two readings was less than a quarter of the last
      entry's claim. */
  predicate StoppedAt(s0: Sweep, s: Sweep, w: Setting, i: nat, j: nat) {
    && i < j < s.readings && j < |w.world.free| && w.world.free[i].Some? && w.world.free[j].Some? && s.gone != []
    && Gain(w.world.free[j].value, w.world.free[i].value) * 4 < Claim(s0.blobs, s.gone[|s.gone| - 1])
  }

  /** The remembered reading is one that was made. */
  ghost predicate ReadingsOk(s0: Sweep, s: Sweep, w: Setting) {
    && (s.report.lastFree.Some? ==> exists i :: 0 <= i < s.readings && Reading(w.world, i) == s.report.lastFree)
    && (s.report.stoppedEarly ==> w.policy.maxBytes.Some? && !w.policy.dryRun && exists i: nat, j: nat :: StoppedAt(s0, s, w, i, j))
  }

  predicate Fresh(s: Sweep, e: Entry) {
    forall k :: 0 <= k < |s.gone| ==> s.gone[k].key != e.key
  }

  lemma FreshKey(s: Sweep, e: Entry)
    requires Fresh(s, e)
    ensures e.key !in KeySet(s.gone)
  {
  }

  /** An entry not evicted yet is judged by the files there were at the start. */
  lemma JudgedAsBefore(s0: Sweep, s: Sweep, w: Setting, e: Entry)
    requires FilesOk(s0, s, w) && Fresh(s, e)
    ensures Claim(s.blobs, e) == Claim(s0.blobs, e) && Linked(s.blobs, e) == Linked(s0.blobs, e)
    ensures Refused(s.blobs, w.policy, w.world, e) == Refused(s0.blobs, w.policy, w.world, e)
    ensures Evictable(s0.blobs, w.policy, w.world, e) <==> !Linked(s.blobs, e) && !Refused(s.blobs, w.policy, w.world, e)
  {
    FreshKey(s, e);
    hide KeySet;
  }

  /** Whether this visit evicts. */
  predicate Evicts(s: Sweep, w: Setting, e: Entry) {
    && !s.report.stoppedEarly && (OverSize(w.policy, s.total) || TooOld(w.policy, w.now, e))
    && !Linked(s.blobs, e) && !Refused(s.blobs, w.policy, w.world, e)
  }

  lemma VisitLeaves(s: Sweep, w: Setting, e: Entry)
    requires !Evicts(s, w, e)
    ensures var r := Visit(s, w, e);
      && r.blobs == s.blobs && r.meta == s.meta && r.total == s.total && r.gone == s.gone && r.left == s.left + [e] && r.readings == s.readings
      && r.report == s.report.(keptLinked := r.report.keptLinked, keptBusy := r.report.keptBusy)
  {
    hide OverSize, TooOld, Linked, Refused;
  }

  lemma VisitEvicts(s: Sweep, w: Setting, e: Entry)
    requires Evicts(s, w, e)
    ensures var r, claimed := Visit(s, w, e), Claim(s.blobs, e);
      && r.blobs == WithoutFiles(s, w, e.key).blobs && r.meta == WithoutFiles(s, w, e.key).meta
      && r.gone == s.gone + [e] && r.left == s.left
      && r.report.removed == s.report.removed + [e.key] && r.report.freedBytes == s.report.freedBytes + claimed
      && r.report.totalBefore == s.report.totalBefore
      && r.report.stoppedEarly == NoProgress(s, w, claimed)
      && (!r.report.stoppedEarly ==> r.total == Gain(s.total, claimed))
      && r.readings == Measured(s, w, claimed).readings && r.report.lastFree == Measured(s, w, claimed).report.lastFree
  {
    hide OverSize, TooOld, Linked, Refused, Claim, NoProgress;
  }

  lemma VisitFiles(s0: Sweep, s: Sweep, w: Setting, e: Entry)
    requires FilesOk(s0, s, w) && Fresh(s, e)
    ensures FilesOk(s0, Visit(s, w, e), w)
  {
    JudgedAsBefore(s0, s, w, e);
    var r := Visit(s, w, e);
    if Evicts(s, w, e) {
      VisitEvicts(s, w, e);
      KeySetSnoc(s.gone, e);
      assert Keys(s.gone + [e]) == Keys(s.gone) + [e.key];
      hide Visit, KeySet, Evictable, Linked, Refused, Claim, OverSize, TooOld, NoProgress, Measured;
      assert s0.blobs - KeySet(s.gone) - {e.key} == s0.blobs - (KeySet(s.gone) + {e.key});
      var was, now := KeySet(s.gone) - w.world.stuck, KeySet(s.gone) + {e.key} - w.world.stuck;
      assert now == if e.key in w.world.stuck then was else was + {e.key};
      assert s0.meta - was - {e.key} == s0.meta - (was + {e.key});
    } else {
      VisitLeaves(s, w, e);
      hide Visit, KeySet, Evictable, Linked, Refused;
    }
  }

  lemma SumsIs(s0: Sweep, s: Sweep, met: seq<Entry>)
    ensures SumsOk(s0, s, met) <==>
      && multiset(s.gone) + multiset(s.left) == multiset(met)
      && Claims(s0.blobs, s.gone) + Claims(s0.blobs, s.left) == Claims(s0.blobs, met)
      && s.report.freedBytes == Claims(s0.blobs, s.gone)
      && (!s.report.stoppedEarly ==> s.total == s0.total - Claims(s0.blobs, s.gone))
      && s.report.totalBefore == s0.report.totalBefore
  {
    hide Claims;
  }

  lemma GainIs(a: nat, b: nat)
    requires b <= a
    ensures Gain(a, b) == a - b
  {
  }

  lemma OneMoreGone(gone: seq<Entry>, left: seq<Entry>, met: seq<Entry>, e: Entry)
    requires multiset(gone) + multiset(left) == multiset(met)
    ensures multiset(gone + [e]) + multiset(left) == multiset(met + [e])
    ensures multiset(gone) + multiset(left + [e]) == multiset(met + [e])
  {
  }

  lemma NotStoppedBefore(s: Sweep, w: Setting, e: Entry)
    requires Evicts(s, w, e)
    ensures !s.report.stoppedEarly
  {
  }

  lemma VisitSums(s0: Sweep, s: Sweep, w: Setting, met: seq<Entry>, e: Entry)
    requires FilesOk(s0, s, w) && Fresh(s, e) && SumsOk(s0, s, met) && Claims(s0.blobs, met + [e]) <= s0.total
    ensures SumsOk(s0, Visit(s, w, e), met + [e])
  {
    hide *;
    JudgedAsBefore(s0, s, w, e);
    ClaimsSnoc(s0.blobs, met, e);
    ClaimsSnoc(s0.blobs, s.gone, e);
    ClaimsSnoc(s0.blobs, s.left, e);
    SumsIs(s0, s, met);
    OneMoreGone(s.gone, s.left, met, e);
    var r := Visit(s, w, e);
    if Evicts(s, w, e) {
      NotStoppedBefore(s, w, e);
      VisitEvicts(s, w, e);
      GainIs(s.total, Claim(s.blobs, e));
    } else {
      VisitLeaves(s, w, e);
    }
    SumsIs(s0, r, met + [e]);
  }

  lemma LeftForLess(s0: Sweep, w: Setting, total: nat, less: nat, e: Entry)
    requires LeftFor(s0, w, total, e) && less <= total
    ensures LeftFor(s0, w, less, e)
  {
  }

  lemma VisitLeft(s0: Sweep, s: Sweep, w: Setting, e: Entry)
    requires FilesOk(s0, s, w) && Fresh(s, e) && LeftOk(s0, s, w)
    ensures LeftOk(s0, Visit(s, w, e), w)
  {
    JudgedAsBefore(s0, s, w, e);
    var r := Visit(s, w, e);
    if Evicts(s, w, e) {
      VisitEvicts(s, w, e);
      if !r.report.stoppedEarly {
        forall k | 0 <= k < |r.left| ensures LeftFor(s0, w, r.total, r.left[k]) {
          LeftForLess(s0, w, s.total, r.total, s.left[k]);
        }
      }
    } else {
      VisitLeaves(s, w, e);
    }
    hide Visit, FilesOk, Linked, Refused, NoProgress, Measured, WithoutFiles, Claim;
  }

  lemma PrefixIs(s0: Sweep, s: Sweep, w: Setting, met: seq<Entry>)
    ensures var all, n := AllEvictable(s0.blobs, w.policy, w.world, met), |s.gone|;
      PrefixOk(s0, s, w, met) <==>
        && s.gone <= all
        && (n > 0 ==> Claims(s0.blobs, s.gone[..n - 1]) <= s0.total
                      && OverSize(w.policy, s0.total - Claims(s0.blobs, s.gone[..n - 1])))
        && (s.report.stoppedEarly || s.gone == all || !OverSize(w.policy, s.total))
  {
    hide Claims, AllEvictable, OverSize;
  }

  lemma PrefixGrows(gone: seq<Entry>, all: seq<Entry>, e: Entry)
    requires gone <= all
    ensures gone <= all + [e]
    ensures gone == all ==> gone + [e] <= all + [e] && gone + [e] == all + [e] && (gone + [e])[..|gone|] == gone
  {
  }

  lemma SizeAlone(s: Sweep, w: Setting, e: Entry)
    requires w.policy.keepSecs.None?
    ensures Evicts(s, w, e) <==>
      !s.report.stoppedEarly && OverSize(w.policy, s.total) && !Linked(s.blobs, e) && !Refused(s.blobs, w.policy, w.world, e)
  {
    hide OverSize, Linked, Refused;
  }

  lemma VisitPrefix(s0: Sweep, s: Sweep, w: Setting, met: seq<Entry>, e: Entry)
    requires FilesOk(s0, s, w) && Fresh(s, e) && SumsOk(s0, s, met) && PrefixOk(s0, s, w, met) && w.policy.keepSecs.None?
    requires Claims(s0.blobs, met + [e]) <= s0.total
    ensures PrefixOk(s0, Visit(s, w, e), w, met + [e])
  {
    hide *;
    JudgedAsBefore(s0, s, w, e);
    EvictableSnoc(s0.blobs, w, met, e);
    SumsIs(s0, s, met);
    PrefixIs(s0, s, w, met);
    SizeAlone(s, w, e);
    var all, r := AllEvictable(s0.blobs, w.policy, w.world, met), Visit(s, w, e);
    PrefixGrows(s.gone, all, e);
    assert all + [] == all;
    if Evicts(s, w, e) {
      VisitEvicts(s, w, e);
      assert s.gone == all;
      assert r.gone[..|r.gone| - 1] == s.gone;
    } else {
      VisitLeaves(s, w, e);
    }
    PrefixIs(s0, r, w, met + [e]);
  }

  lemma VisitReadings(s0: Sweep, s: Sweep, w: Setting, e: Entry)
    requires FilesOk(s0, s, w) && Fresh(s, e) && ReadingsOk(s0, s, w)
    ensures ReadingsOk(s0, Visit(s, w, e), w)
  {
    JudgedAsBefore(s0, s, w, e);
    var r := Visit(s, w, e);
    if Evicts(s, w, e) {
      VisitEvicts(s, w, e);
      MeasuredReadings(s, r, w, Claim(s.blobs, e));
      if r.report.stoppedEarly {
        var i := LastReading(s, w);
        assert StoppedAt(s0, r, w, i, s.readings);
      }
      hide Visit, FilesOk, Evicts, StoppedAt;
    } else {
      VisitLeaves(s, w, e);
      if s.report.stoppedEarly {
        var i: nat, j: nat :| StoppedAt(s0, s, w, i, j);
        assert StoppedAt(s0, r, w, i, j);
      }
      hide Visit, FilesOk, Evicts;
    }
  }

  lemma LastReading(s: Sweep, w: Setting) returns (i: nat)
    requires s.report.lastFree.Some? && exists i :: 0 <= i < s.readings && Reading(w.world, i) == s.report.lastFree
    ensures i < s.readings && Reading(w.world, i) == s.report.lastFree
  {
    i :| 0 <= i < s.readings && Reading(w.world, i) == s.report.lastFree;
  }

  lemma MeasuredReadings(s: Sweep, r: Sweep, w: Setting, claimed: nat)
    requires s.report.lastFree.Some? ==> exists i :: 0 <= i < s.readings && Reading(w.world, i) == s.report.lastFree
    requires r.readings == Measured(s, w, claimed).readings && r.report.lastFree == Measured(s, w, claimed).report.lastFree
    ensures r.report.lastFree.Some? ==> exists i :: 0 <= i < r.readings && Reading(w.world, i) == r.report.lastFree
  {
    if s.report.lastFree.Some? {
      var i := LastReading(s, w);
      assert Reading(w.world, i) == s.report.lastFree;
    }
    assert r.readings > s.readings && Reading(w.world, s.readings).Some? ==> r.report.lastFree == Reading(w.world, s.readings);
  }

  /** Everything a sweep of entries with distinct keys keeps. */
  ghost predicate SweepOk(s0: Sweep, s: Sweep, w: Setting, met: seq<Entry>) {
    && FilesOk(s0, s, w) && SumsOk(s0, s, met) && LeftOk(s0, s, w) && ReadingsOk(s0, s, w)
    && (w.policy.keepSecs.None? ==> PrefixOk(s0, s, w, met))
  }

  lemma NotMetBefore(s0: Sweep, s: Sweep, es: seq<Entry>, k: nat)
    requires k < |es| && DistinctKeys(es) && SumsOk(s0, s, es[..k])
    ensures Fresh(s, es[k])
  {
    forall j | 0 <= j < |s.gone| ensures s.gone[j].key != es[k].key {
      assert s.gone[j] in multiset(s.gone);
      assert s.gone[j] in multiset(es[..k]);
      var m :| 0 <= m < k && es[m] == s.gone[j];
    }
  }

  /** The sweep over the entries, for every order of them, policy and world. */
  lemma {:induction false} SweepKeeps(s0: Sweep, w: Setting, es: seq<Entry>, k: nat)
    requires DistinctKeys(es) && k <= |es| && Claims(s0.blobs, es) == s0.total
    requires s0.gone == [] && s0.left == [] && !s0.report.stoppedEarly && s0.report.removed == [] && s0.report.freedBytes == 0
    requires s0.report.lastFree.None?
    ensures SweepOk(s0, Swept(s0, w, es[..k]), w, es[..k])
  {
    hide *;
    if k == 0 {
      assert es[..0] == [];
      NothingSwept(s0, w);
    } else {
      SweepKeeps(s0, w, es, k - 1);
      ClaimsOfFirst(s0.blobs, es, k);
      var met, e := es[..k - 1], es[k - 1];
      assert es[..k] == met + [e];
      SweepStep(s0, Swept(s0, w, met), w, es, k - 1);
      SweptSnoc(s0, w, met, e);
    }
  }

  lemma SweepParts(s0: Sweep, s: Sweep, w: Setting, met: seq<Entry>)
    ensures SweepOk(s0, s, w, met) <==>
      && FilesOk(s0, s, w) && SumsOk(s0, s, met) && LeftOk(s0, s, w) && ReadingsOk(s0, s, w)
      && (w.policy.keepSecs.None? ==> PrefixOk(s0, s, w, met))
  {
    hide FilesOk, SumsOk, LeftOk, ReadingsOk, PrefixOk;
  }

  lemma SweepStep(s0: Sweep, s: Sweep, w: Setting, es: seq<Entry>, k: nat)
    requires DistinctKeys(es) && k < |es| && Claims(s0.blobs, es[..k] + [es[k]]) <= s0.total && SweepOk(s0, s, w, es[..k])
    ensures SweepOk(s0, Visit(s, w, es[k]), w, es[..k] + [es[k]])
  {
    hide *;
    var met, e := es[..k], es[k];
    SweepParts(s0, s, w, met);
    NotMetBefore(s0, s, es, k);
    VisitFiles(s0, s, w, e);
    VisitSums(s0, s, w, met, e);
    VisitLeft(s0, s, w, e);
    VisitReadings(s0, s, w, e);
    if w.policy.keepSecs.None? {
      VisitPrefix(s0, s, w, met, e);
    }
    SweepParts(s0, Visit(s, w, e), w, met + [e]);
  }

  lemma SweptSnoc(s0: Sweep, w: Setting, met: seq<Entry>, e: Entry)
    ensures Swept(s0, w, met + [e]) == Visit(Swept(s0, w, met), w, e)
  {
    assert (met + [e])[..|met|] == met;
    hide Visit;
  }

  lemma NothingSwept(s0: Sweep, w: Setting)
    requires s0.gone == [] && s0.left == [] && !s0.report.stoppedEarly && s0.report.removed == [] && s0.report.freedBytes == 0
    requires s0.report.lastFree.None?
    ensures Swept(s0, w, []) == s0 && SweepOk(s0, s0, w, [])
  {
    assert KeySet([]) == {};
    assert s0.blobs - {} == s0.blobs && s0.meta - {} == s0.meta;
    assert {} - w.world.stuck == {};
  }

  // ---- What a sweep means for the store ----

  /** A blob with more than one name stays as it is. */
  lemma LinkedStay(s0: Sweep, s: Sweep, w: Setting, key: Key)
    requires FilesOk(s0, s, w) && key in s0.blobs && s0.blobs[key].links > 1
    ensures key in s.blobs && s.blobs[key] == s0.blobs[key]
  {
    forall k | 0 <= k < |s.gone| ensures s.gone[k].key != key {
      assert Evictable(s0.blobs, w.policy, w.world, s.gone[k]);
    }
    assert key !in KeySet(s.gone);
  }

  /** Every blob left keeps its metadata: nothing becomes garbage nobody can find. */
  lemma MetadataStays(s0: Sweep, s: Sweep, w: Setting, key: Key)
    requires FilesOk(s0, s, w) && key in s.blobs && key in s0.meta
    ensures key in s.meta && s.meta[key] == s0.meta[key]
  {
    hide KeySet;
  }

  /** What was freed and what is left is what there was. */
  lemma BytesConserved(s0: Sweep, s: Sweep, met: seq<Entry>)
    requires SumsOk(s0, s, met) && s0.total == Claims(s0.blobs, met) == s0.report.totalBefore
    ensures s.report.freedBytes + Claims(s0.blobs, s.left) == s.report.totalBefore
  {
    hide Claims;
  }

  /** Short of an early stop the total fits, or everything left is linked or cannot
      be removed. */
  lemma FitsOrKept(s0: Sweep, s: Sweep, w: Setting, met: seq<Entry>, k: nat)
    requires SumsOk(s0, s, met) && LeftOk(s0, s, w) && !s.report.stoppedEarly && k < |s.left|
    requires s0.total == Claims(s0.blobs, met)
    ensures s.total == Claims(s0.blobs, s.left)
    ensures Evictable(s0.blobs, w.policy, w.world, s.left[k]) ==>
      !OverSize(w.policy, Claims(s0.blobs, s.left)) && !TooOld(w.policy, w.now, s.left[k])
  {
    assert LeftFor(s0, w, s.total, s.left[k]);
    hide Claims, Evictable, OverSize, TooOld;
  }

  lemma {:induction false} MoreClaimed(blobs: map<Key, Blob>, es: seq<Entry>, j: nat, k: nat)
    requires j <= k <= |es|
    ensures Claims(blobs, es[..j]) <= Claims(blobs, es[..k])
  {
    ClaimsOfFirst(blobs, es[..k], j);
    assert es[..k][..j] == es[..j];
  }

  /** With a size budget alone exactly the shortest sufficient prefix of the
      evictable entries, oldest first, is evicted: no shorter one would fit, and
      short of an early stop this one does, unless even all of them would not. */
  lemma ShortestPrefix(s0: Sweep, s: Sweep, w: Setting, met: seq<Entry>, n: nat)
    requires PrefixOk(s0, s, w, met) && SumsOk(s0, s, met) && s0.total == Claims(s0.blobs, met)
    ensures s.gone <= AllEvictable(s0.blobs, w.policy, w.world, met)
    ensures n < |s.gone| ==> Claims(s0.blobs, s.gone[..n]) <= s0.total && OverSize(w.policy, s0.total - Claims(s0.blobs, s.gone[..n]))
    ensures !s.report.stoppedEarly && |s.gone| < |AllEvictable(s0.blobs, w.policy, w.world, met)| ==>
      Claims(s0.blobs, s.gone) <= s0.total && !OverSize(w.policy, s0.total - Claims(s0.blobs, s.gone))
  {
    hide Claims, AllEvictable;
    if n < |s.gone| {
      MoreClaimed(s0.blobs, s.gone, n, |s.gone| - 1);
    }
  }

  lemma StillValid(store: Store, s0: Sweep)
    requires forall k :: k in s0.meta ==> s0.meta[k].key == k
    requires forall k :: k in store.meta ==> k in s0.meta && store.meta[k] == s0.meta[k]
    ensures store.Valid()
  {
  }

  lemma ValidIs(store: Store)
    requires store.Valid()
    ensures forall k :: k in store.meta ==> store.meta[k].key == k
  {
  }

  // ---- The store ----

  /** Sorting a listing gives a listing. */
  lemma SortedListing(es: seq<Entry>)
    requires DistinctKeys(es)
    ensures OldestFirst(SortByAge(es)) && DistinctKeys(SortByAge(es))
    ensures forall e :: e in SortByAge(es) <==> e in es
  {
    SortByAgeSorts(es);
    var r := SortByAge(es);
    hide SortByAge;
    forall e ensures e in r <==> e in es {
      assert e in multiset(r) <==> e in multiset(es);
    }
    forall j, k | 0 <= j < k < |r| ensures r[j].key != r[k].key {
      TwiceIn(es, r, j, k);
    }
  }

  lemma TwiceIn(es: seq<Entry>, r: seq<Entry>, j: nat, k: nat)
    requires DistinctKeys(es) && multiset(r) == multiset(es) && j < k < |r|
    ensures r[j].key != r[k].key
  {
    assert r[j] in multiset(r) && r[k] in multiset(r);
    var a :| 0 <= a < |es| && es[a] == r[j];
    var b :| 0 <= b < |es| && es[b] == r[k];
    OnlyOnce(es, a);
    Two(r, j, k);
  }

  lemma Two(r: seq<Entry>, j: nat, k: nat)
    requires j < k < |r|
    ensures r[j] == r[k] ==> multiset(r)[r[j]] >= 2
  {
    assert r == r[..j] + [r[j]] + r[j + 1..k] + [r[k]] + r[k + 1..];
  }

  lemma OnlyOnce(es: seq<Entry>, a: nat)
    requires DistinctKeys(es) && a < |es|
    ensures multiset(es)[es[a]] == 1
  {
    var before, after := es[..a], es[a + 1..];
    assert es == before + [es[a]] + after;
    assert es[a] !in before;
    assert es[a] !in after;
  }

  lemma StartIs(blobs: map<Key, Blob>, meta: map<Key, Entry>, order: seq<Entry>, dryRun: bool)
    ensures var s0, total := Start(blobs, meta, order, dryRun), Claims(blobs, order);
      && s0.blobs == blobs && s0.meta == meta && s0.total == total && s0.gone == [] && s0.left == [] && s0.readings == 0
      && s0.report == Report([], 0, [], 0, total, dryRun, false, None)
  {
  }

  /** After an early stop the files and the report stay as they are. */
  lemma {:induction false} StoppedStays(s0: Sweep, w: Setting, es: seq<Entry>, i: nat, k: nat)
    requires i <= k <= |es| && Swept(s0, w, es[..i]).report.stoppedEarly
    ensures var s, r := Swept(s0, w, es[..i]), Swept(s0, w, es[..k]);
      r.blobs == s.blobs && r.meta == s.meta && r.report == s.report
    decreases k - i
  {
    if i < k {
      StoppedStays(s0, w, es, i, k - 1);
      assert es[..k] == es[..k - 1] + [es[k - 1]];
      SweptSnoc(s0, w, es[..k - 1], es[k - 1]);
      hide Swept;
    }
  }

  lemma FilesKeepValid(s0: Sweep, s: Sweep, w: Setting, met: seq<Entry>)
    requires SweepOk(s0, s, w, met)
    ensures forall k :: k in s.meta ==> k in s0.meta && s.meta[k] == s0.meta[k]
  {
    hide KeySet, SumsOk, LeftOk, ReadingsOk, PrefixOk, Evictable, Keys;
  }

  class Store {
    var blobs: map<Key, Blob>
    var meta: map<Key, Entry>

    /** Metadata is filed under its own key. */
    predicate Valid()
      reads this
    {
      forall k :: k in meta ==> meta[k].key == k
    }

    constructor (blobs: map<Key, Blob>, meta: map<Key, Entry>)
      requires forall k :: k in meta ==> meta[k].key == k
      ensures Valid() && this.blobs == blobs && this.meta == meta
    {
      this.blobs, this.meta := blobs, meta;
    }

    /** Every entry once, in the order a directory happens to be read. */
    method List() returns (es: seq<Entry>)
      requires Valid()
      ensures DistinctKeys(es) && forall e :: e in es <==> e.key in meta && meta[e.key] == e
    {
      es := [];
      var keys := meta.Keys;
      while keys != {}
        invariant keys <= meta.Keys && DistinctKeys(es)
        invariant forall e :: e in es <==> e.key in meta && e.key !in keys && meta[e.key] == e
        decreases keys
      {
        var key :| key in keys;
        keys := keys - {key};
        es := es + [meta[key]];
      }
    }

    /** gc: what the sweep over the entries, oldest first, makes of the store. */
    method Gc(policy: Policy, now: nat, world: World) returns (report: Report, ghost order: seq<Entry>, ghost s: Sweep)
      requires Valid()
      modifies this
      ensures OldestFirst(order) && DistinctKeys(order)
      ensures forall e :: e in order <==> e.key in old(meta) && old(meta)[e.key] == e
      ensures s == Swept(Start(old(blobs), old(meta), order, policy.dryRun), Setting(policy, now, world), order)
      ensures blobs == s.blobs && meta == s.meta && report == s.report && Valid()
      ensures SweepOk(Start(old(blobs), old(meta), order, policy.dryRun), s, Setting(policy, now, world), order)
    {
      hide *;
      var listed := List();
      var entries := SortByAge(listed);
      order := entries;
      SortedListing(listed);
      ValidIs(this);
      var w := Setting(policy, now, world);
      ghost var s0 := Start(blobs, meta, order, policy.dryRun);
      var total := Claims(blobs, entries);
      report := Report([], 0, [], 0, total, policy.dryRun, false, None);
      var readings := 0;
      StartIs(blobs, meta, order, policy.dryRun);
      NothingSwept(s0, w);
      assert entries[..0] == [];
      s := s0;
      var i := 0;
      while i < |entries| && !report.stoppedEarly
        invariant 0 <= i <= |entries| && s == Swept(s0, w, entries[..i])
        invariant blobs == s.blobs && meta == s.meta && report == s.report && total == s.total && readings == s.readings
      {
        var e := entries[i];
        SweptSnoc(s0, w, entries[..i], e);
        assert entries[..i + 1] == entries[..i] + [e];
        report, total, readings := VisitEntry(w, e, report, total, readings, s);
        s := Visit(s, w, e);
        i := i + 1;
      }
      if i < |entries| {
        StoppedStays(s0, w, entries, i, |entries|);
      }
      assert entries[..|entries|] == entries;
      s := Swept(s0, w, entries);
      SweepKeeps(s0, w, entries, |entries|);
      FilesKeepValid(s0, s, w, entries);
      StillValid(this, s0);
    }

    /** The body of the loop: blob first, and only then its metadata. */
    method VisitEntry(w: Setting, e: Entry, report: Report, total: nat, readings: nat, ghost s: Sweep)
      returns (report': Report, total': nat, readings': nat)
      requires blobs == s.blobs && meta == s.meta && report == s.report && total == s.total && readings == s.readings
      requires !report.stoppedEarly
      modifies this
      ensures var r := Visit(s, w, e);
        blobs == r.blobs && meta == r.meta && report' == r.report && total' == r.total && readings' == r.readings
    {
      report', total', readings' := report, total, readings;
      if !OverSize(w.policy, total) && !TooOld(w.policy, w.now, e) {
        return;
      }
      if Linked(blobs, e) {
        report' := report.(keptLinked := report.keptLinked + 1);
        return;
      }
      var claimed := Claim(blobs, e);
      var stop := false;
      if !w.policy.dryRun {
        if e.key in blobs && e.key in w.world.busy {
          report' := report.(keptBusy := report.keptBusy + [e.key]);
          return;
        }
        blobs := blobs - {e.key};
        if e.key !in w.world.stuck {
          meta := meta - {e.key};
        }
        if w.policy.maxBytes.Some? && claimed > 0 {
          var freed, last := FreedSince(report.lastFree, Reading(w.world, readings)).0, FreedSince(report.lastFree, Reading(w.world, readings)).1;
          readings' := readings + 1;
          report' := report.(lastFree := last);
          stop := freed.Some? && freed.value * 4 < claimed;
        }
      }
      report' := report'.(stoppedEarly := stop, removed := report'.removed + [e.key], freedBytes := report'.freedBytes + claimed);
      if !stop {
        total' := Gain(total, claimed);
      }
    }
  }
}
