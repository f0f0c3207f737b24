/** Clone pinning (zfs.rs): materialize, release, put and gc as steps that other
    processes may interleave with. `zfs destroy` of an image with a clone is
    refused by ZFS itself; everything else is the code's own order of steps. */
module ZfsPins {
  import opened Basics

  type Key = string
  /** A destination path. Its clone's name is a hash of it, taken as injective. */
  type Dest = string

  datatype Info = Info(actualBytes: nat, lastUsed: nat)

  /** A gc between two steps: the entries still to look at, the images pinned when
      it began, the running total, and an image destroyed whose metadata is next. */
  datatype Sweeper = Sweeper(todo: seq<(Key, Info)>, pinned: set<Key>, total: nat, maxBytes: Option<nat>, keepSecs: Option<nat>, now: nat,
                             dryRun: bool, half: Option<Key>, keptBusy: seq<Key>, removed: seq<Key>)

  /** A materialize between two steps. */
  datatype Cloning = Checked(key: Key, dest: Dest) | Cleared(key: Key, dest: Dest)

  /** What is on disk, and the processes under way. `images` are the datasets with
      their snapshot, `clones` maps a destination to the image it was cloned from. */
  datatype State = State(images: set<Key>, meta: map<Key, Info>, clones: map<Dest, Key>,
                         gcs: map<nat, Sweeper>, cloning: map<nat, Cloning>)

  datatype Step =
    /** materialize: the image is there; drop an older clone (which may fail); clone. */
    | Check(p: nat, key: Key, dest: Dest)
    | Clear(p: nat, works: bool)
    | Clone(p: nat)
    /** release: destroy the clone, which may fail. */
    | Release(dest: Dest, works: bool)
    /** gc: read entries and pins; then, entry by entry, destroy the dataset (which
        ZFS may refuse for its own reasons) and remove the metadata. */
    | Begin(g: nat, todo: seq<(Key, Info)>, maxBytes: Option<nat>, keepSecs: Option<nat>, now: nat, dryRun: bool)
    | Look(g: nat, refused: bool)
    | Forget(g: nat)
    /** put: dataset and snapshot; then the metadata. */
    | Create(key: Key)
    | Record(key: Key, info: Info)

  function Pinned(clones: map<Dest, Key>): set<Key> { clones.Values }

  /** The sum over the entries listed. */
  function Total(todo: seq<(Key, Info)>): nat {
    if todo == [] then 0 else Total(todo[1..]) + todo[0].1.actualBytes
  }

  predicate Wanted(s: Sweeper, i: Info) {
    || (s.maxBytes.Some? && s.total > s.maxBytes.value)
    || (s.keepSecs.Some? && s.now > i.lastUsed && s.now - i.lastUsed > s.keepSecs.value)
  }

  /** gc at the next entry. ZFS refuses to destroy an image that something was cloned
      from. A dataset that is gone is an error other than busy: the
      gc gives up. */
  function LookStep(s: State, g: nat, refused: bool): State
    requires g in s.gcs && s.gcs[g].todo != [] && s.gcs[g].half.None?
  {
    var me := s.gcs[g];
    var key, info, rest := me.todo[0].0, me.todo[0].1, me.(todo := me.todo[1..]);
    if !Wanted(me, info) then s.(gcs := s.gcs[g := rest])
    else if key in me.pinned then s.(gcs := s.gcs[g := rest.(keptBusy := me.keptBusy + [key])])
    else
      var less := rest.(total := if me.total > info.actualBytes then me.total - info.actualBytes else 0);
      if me.dryRun then s.(gcs := s.gcs[g := less.(removed := me.removed + [key])])
      else if key !in s.images then s.(gcs := s.gcs - {g})
      else if refused || key in Pinned(s.clones) then s.(gcs := s.gcs[g := rest.(keptBusy := me.keptBusy + [key])])
      else s.(images := s.images - {key}, gcs := s.gcs[g := less.(half := Some(key))])
  }

  /** What a step does. A step whose process is not at that point does nothing. */
  function Next(s: State, step: Step): State {
    match step
    case Check(p, key, dest) =>
      if p in s.cloning || key !in s.images then s else s.(cloning := s.cloning[p := Checked(key, dest)])
    case Clear(p, works) =>
      if p !in s.cloning || !s.cloning[p].Checked? then s
      else
        var c := s.cloning[p];
        s.(clones := if works then s.clones - {c.dest} else s.clones, cloning := s.cloning[p := Cleared(c.key, c.dest)])
    case Clone(p) =>
      if p !in s.cloning || !s.cloning[p].Cleared? then s
      else
        var c := s.cloning[p];
        if c.key in s.images && c.dest !in s.clones
        then s.(clones := s.clones[c.dest := c.key], cloning := s.cloning - {p})
        else s.(cloning := s.cloning - {p})
    case Release(dest, works) =>
      if works then s.(clones := s.clones - {dest}) else s
    case Begin(g, todo, maxBytes, keepSecs, now, dryRun) =>
      if g in s.gcs then s
      else s.(gcs := s.gcs[g := Sweeper(todo, Pinned(s.clones), Total(todo), maxBytes, keepSecs, now, dryRun, None, [], [])])
    case Look(g, refused) =>
      if g !in s.gcs || s.gcs[g].todo == [] || s.gcs[g].half.Some? then s else LookStep(s, g, refused)
    case Forget(g) =>
      if g !in s.gcs || s.gcs[g].half.None? then s
      else
        var me := s.gcs[g];
        s.(meta := s.meta - {me.half.value}, gcs := s.gcs[g := me.(half := None, removed := me.removed + [me.half.value])])
    case Create(key) =>
      s.(images := s.images + {key})
    case Record(key, info) =>
      if key in s.images then s.(meta := s.meta[key := info]) else s
  }

  function Run(s: State, steps: seq<Step>): State {
    if steps == [] then s else Next(Run(s, steps[..|steps| - 1]), steps[|steps| - 1])
  }

  lemma RunSnoc(s: State, steps: seq<Step>, step: Step)
    ensures Run(s, steps + [step]) == Next(Run(s, steps), step)
  {
    assert (steps + [step])[..|steps|] == steps;
    hide Next;
  }

  // ---- Clones and their images ----

  /** Every clone's image is there. */
  predicate ClonesBacked(s: State) {
    forall d :: d in s.clones ==> s.clones[d] in s.images
  }

  /** Whatever the steps and whoever takes them, an image with a clone stays. */
  lemma StepKeepsBacked(s: State, step: Step)
    requires ClonesBacked(s)
    ensures ClonesBacked(Next(s, step))
  {
    if step.Look? && step.g in s.gcs && s.gcs[step.g].todo != [] && s.gcs[step.g].half.None? {
      var key := s.gcs[step.g].todo[0].0;
      forall d | d in s.clones && key !in Pinned(s.clones) ensures s.clones[d] != key {
        assert s.clones[d] in s.clones.Values;
      }
      hide Wanted;
    }
    hide Total;
  }

  lemma {:induction false} RunKeepsBacked(s: State, steps: seq<Step>)
    requires ClonesBacked(s)
    ensures ClonesBacked(Run(s, steps))
    decreases |steps|
  {
    hide *;
    if steps == [] {
      RunNone(s);
    } else {
      var n := |steps| - 1;
      RunKeepsBacked(s, steps[..n]);
      StepKeepsBacked(Run(s, steps[..n]), steps[n]);
      RunSnoc(s, steps[..n], steps[n]);
      assert steps == steps[..n] + [steps[n]];
    }
  }

  lemma RunNone(s: State)
    ensures Run(s, []) == s
  {
  }

  // ---- Metadata ----

  /** No gc is between destroying the image and removing its metadata. */
  predicate NoneHalf(s: State, key: Key) {
    forall g :: g in s.gcs ==> s.gcs[g].half != Some(key)
  }

  /** What gcs are about to forget is gone. */
  predicate HalvesGone(s: State) {
    forall k :: k in s.images ==> NoneHalf(s, k)
  }

  lemma LookKeepsHalves(s: State, g: nat, refused: bool)
    requires HalvesGone(s) && g in s.gcs && s.gcs[g].todo != [] && s.gcs[g].half.None?
    ensures HalvesGone(LookStep(s, g, refused))
  {
    var r := LookStep(s, g, refused);
    forall k | k in r.images ensures NoneHalf(r, k) {
      assert NoneHalf(s, k);
    }
    hide Wanted;
  }

  /** Only a put of an image that some gc has destroyed and not yet forgotten
      breaks that. */
  lemma StepKeepsHalves(s: State, step: Step)
    requires HalvesGone(s)
    ensures HalvesGone(Next(s, step)) <==> (step.Create? ==> NoneHalf(s, step.key))
  {
    var r := Next(s, step);
    if step.Create? && !NoneHalf(s, step.key) {
      assert step.key in r.images && !NoneHalf(r, step.key);
    } else {
      if step.Look? && step.g in s.gcs && s.gcs[step.g].todo != [] && s.gcs[step.g].half.None? {
        LookKeepsHalves(s, step.g, step.refused);
      } else {
        forall k | k in r.images ensures NoneHalf(r, k) {
          assert NoneHalf(s, k);
        }
      }
    }
    hide LookStep, Total, Pinned;
  }

  /** Over a whole run: metadata is never at risk exactly if no put brings back an
      image whose removal is unfinished. */
  lemma {:induction false} RunKeepsHalves(s: State, steps: seq<Step>)
    requires HalvesGone(s)
    ensures (forall k :: 0 <= k <= |steps| ==> HalvesGone(Run(s, steps[..k])))
        <==> (forall k :: 0 <= k < |steps| ==> PutsNoHalf(Run(s, steps[..k]), steps[k]))
    decreases |steps|
  {
    hide *;
    assert steps[..|steps|] == steps;
    RunNone(s);
    assert steps[..0] == [];
    if steps != [] {
      var n := |steps| - 1;
      var front := steps[..n];
      RunKeepsHalves(s, front);
      forall k | 0 <= k <= n ensures front[..k] == steps[..k] {
      }
      RunSnoc(s, front, steps[n]);
      assert steps == front + [steps[n]];
      if HalvesGone(Run(s, front)) {
        PutsIs(Run(s, front), steps[n]);
        StepKeepsHalves(Run(s, front), steps[n]);
      }
    }
  }

  predicate PutsNoHalf(s: State, step: Step) {
    step.Create? ==> NoneHalf(s, step.key)
  }

  lemma PutsIs(s: State, step: Step)
    ensures PutsNoHalf(s, step) <==> (step.Create? ==> NoneHalf(s, step.key))
  {
  }

  /** The metadata of a cloned image no gc has begun to remove stays. */
  lemma StepKeepsMeta(s: State, step: Step, dest: Dest)
    requires ClonesBacked(s) && dest in s.clones && s.clones[dest] in s.meta && NoneHalf(s, s.clones[dest])
    ensures s.clones[dest] in Next(s, step).meta && NoneHalf(Next(s, step), s.clones[dest])
  {
    assert s.clones[dest] in Pinned(s.clones);
    hide Wanted, Total, Pinned;
  }

  // ---- A destination that was materialized ----

  /** The step neither releases `dest` nor clears it for another clone. */
  predicate LeavesAlone(s: State, step: Step, dest: Dest) {
    && !(step.Release? && step.dest == dest)
    && !(step.Clear? && step.p in s.cloning && s.cloning[step.p].dest == dest)
  }

  predicate AllLeaveAlone(s: State, steps: seq<Step>, dest: Dest) {
    forall k :: 0 <= k < |steps| ==> LeavesAlone(Run(s, steps[..k]), steps[k], dest)
  }

  lemma StepKeepsClone(s: State, step: Step, dest: Dest)
    requires dest in s.clones && LeavesAlone(s, step, dest)
    ensures dest in Next(s, step).clones && Next(s, step).clones[dest] == s.clones[dest]
  {
    hide Total, Wanted;
  }

  lemma {:induction false} RunKeepsClone(s: State, steps: seq<Step>, dest: Dest)
    requires dest in s.clones && AllLeaveAlone(s, steps, dest)
    ensures dest in Run(s, steps).clones && Run(s, steps).clones[dest] == s.clones[dest]
    decreases |steps|
  {
    hide LeavesAlone, Run, Next;
    if steps == [] {
      RunNone(s);
    } else {
      var n := |steps| - 1;
      forall k | 0 <= k < n ensures LeavesAlone(Run(s, steps[..n][..k]), steps[..n][k], dest) {
        assert steps[..n][..k] == steps[..k];
      }
      RunKeepsClone(s, steps[..n], dest);
      StepKeepsClone(Run(s, steps[..n]), steps[n], dest);
      RunSnoc(s, steps[..n], steps[n]);
      assert steps == steps[..n] + [steps[n]];
    }
  }

  lemma {:induction false} RunKeepsMeta(s: State, steps: seq<Step>, dest: Dest)
    requires ClonesBacked(s) && dest in s.clones && AllLeaveAlone(s, steps, dest)
    requires s.clones[dest] in s.meta && NoneHalf(s, s.clones[dest])
    ensures s.clones[dest] in Run(s, steps).meta && NoneHalf(Run(s, steps), s.clones[dest])
    decreases |steps|
  {
    hide LeavesAlone, Run, Next, NoneHalf, ClonesBacked;
    if steps == [] {
      RunNone(s);
    } else {
      var n := |steps| - 1;
      forall k | 0 <= k < n ensures LeavesAlone(Run(s, steps[..n][..k]), steps[..n][k], dest) {
        assert steps[..n][..k] == steps[..k];
      }
      RunKeepsMeta(s, steps[..n], dest);
      RunKeepsClone(s, steps[..n], dest);
      RunKeepsBacked(s, steps[..n]);
      StepKeepsMeta(Run(s, steps[..n]), steps[n], dest);
      RunSnoc(s, steps[..n], steps[n]);
      assert steps == steps[..n] + [steps[n]];
    }
  }

  /** Until it is released or materialized anew, a destination keeps its clone and
      the image that came from, over every interleaving of all steps; and that image
      keeps its metadata, unless a gc had destroyed and not yet forgotten it. */
  lemma MaterializedStays(s: State, steps: seq<Step>, dest: Dest)
    requires ClonesBacked(s) && dest in s.clones && AllLeaveAlone(s, steps, dest)
    ensures var r, key := Run(s, steps), s.clones[dest];
      && dest in r.clones && r.clones[dest] == key && key in r.images
      && (key in s.meta && NoneHalf(s, key) ==> key in r.meta)
  {
    RunKeepsBacked(s, steps);
    RunKeepsClone(s, steps, dest);
    if s.clones[dest] in s.meta && NoneHalf(s, s.clones[dest]) {
      RunKeepsMeta(s, steps, dest);
    }
    hide Run, AllLeaveAlone, NoneHalf;
  }

  /** The exact condition: if some gc had, its next step takes the metadata. */
  lemma ForgottenNext(s: State, g: nat, dest: Dest)
    requires dest in s.clones && g in s.gcs && s.gcs[g].half == Some(s.clones[dest])
    ensures var r := Next(s, Forget(g)); dest in r.clones && s.clones[dest] !in r.meta && LeavesAlone(s, Forget(g), dest)
  {
  }

  function AfterBegin(key: Key, info: Info): State {
    State({key}, map[key := info], map[],
          map[0 := Sweeper([(key, info)], {}, info.actualBytes, Some(0), None, 0, false, None, [], [])], map[])
  }

  function AfterLook(key: Key, info: Info): State {
    State({}, map[key := info], map[], map[0 := Sweeper([], {}, 0, Some(0), None, 0, false, Some(key), [], [])], map[])
  }

  lemma BeginsAndLooks(key: Key, info: Info)
    requires info.actualBytes > 0
    ensures var s := State({key}, map[key := info], map[], map[], map[]);
      && Next(s, Begin(0, [(key, info)], Some(0), None, 0, false)) == AfterBegin(key, info)
      && Next(AfterBegin(key, info), Look(0, false)) == AfterLook(key, info)
  {
    assert [(key, info)][1..] == [];
    assert Total([(key, info)]) == info.actualBytes;
    var none: map<Dest, Key> := map[];
    assert Pinned(none) == {};
    assert {key} - {key} == {};
    hide Total;
  }

  /** The put that meets an unfinished removal: the image comes back between the
      removal of the dataset and that of the metadata, a clone is made of it, and
      the new metadata is what goes. */
  lemma MetadataLost(key: Key, dest: Dest, info: Info)
    requires info.actualBytes > 0
    ensures var s := State({key}, map[key := info], map[], map[], map[]);
      var r := Run(s, [Begin(0, [(key, info)], Some(0), None, 0, false), Look(0, false), Create(key), Record(key, info),
                       Check(0, key, dest), Clear(0, true), Clone(0), Forget(0)]);
      && ClonesBacked(s) && HalvesGone(s) && key in s.meta
      && dest in r.clones && r.clones[dest] == key && key in r.images && key !in r.meta
  {
    var s := State({key}, map[key := info], map[], map[], map[]);
    BeginsAndLooks(key, info);
    EightSteps(s, Begin(0, [(key, info)], Some(0), None, 0, false), Look(0, false), Create(key), Record(key, info),
               Check(0, key, dest), Clear(0, true), Clone(0), Forget(0));
    hide Run, Wanted, Total, AfterBegin;
  }

  lemma EightSteps(s: State, a: Step, b: Step, c: Step, d: Step, e: Step, f: Step, g: Step, h: Step)
    ensures Run(s, [a, b, c, d, e, f, g, h]) == Next(Next(Next(Next(Next(Next(Next(Next(s, a), b), c), d), e), f), g), h)
  {
    hide Next;
    RunNone(s);
    assert [] + [a] == [a];
    RunSnoc(s, [], a);
    RunSnoc(s, [a], b);
    RunSnoc(s, [a, b], c);
    RunSnoc(s, [a, b, c], d);
    RunSnoc(s, [a, b, c, d], e);
    RunSnoc(s, [a, b, c, d, e], f);
    RunSnoc(s, [a, b, c, d, e, f], g);
    RunSnoc(s, [a, b, c, d, e, f, g], h);
    hide Run;
    assert [a, b] == [a] + [b] && [a, b, c] == [a, b] + [c] && [a, b, c, d] == [a, b, c] + [d];
    assert [a, b, c, d, e] == [a, b, c, d] + [e] && [a, b, c, d, e, f] == [a, b, c, d, e] + [f];
    assert [a, b, c, d, e, f, g] == [a, b, c, d, e, f] + [g] && [a, b, c, d, e, f, g, h] == [a, b, c, d, e, f, g] + [h];
  }

  // ---- One gc among all others ----

  /** No step begins a gc under the number `g`. */
  predicate NoBegin(steps: seq<Step>, g: nat) {
    forall k :: 0 <= k < |steps| && steps[k].Begin? ==> steps[k].g != g
  }

  predicate OfGc(step: Step, g: nat) {
    (step.Look? || step.Forget?) && step.g == g
  }

  /** What stays the same for a gc while it goes on: its pins and its policy; what is
      left to do is an end of what there was; it is never about to forget a pinned
      image. */
  predicate GoesOn(a: Sweeper, b: Sweeper) {
    && b.pinned == a.pinned && b.dryRun == a.dryRun
    && |b.todo| <= |a.todo| && b.todo == a.todo[|a.todo| - |b.todo|..]
    && (b.half.Some? ==> b.half.value !in b.pinned && !b.dryRun)
  }

  /** What looking at the next entry makes of the gc itself. */
  lemma LookOwn(s: State, g: nat, refused: bool)
    requires g in s.gcs && s.gcs[g].todo != [] && s.gcs[g].half.None?
    ensures var r, me := LookStep(s, g, refused), s.gcs[g];
      g in r.gcs ==>
        && r.gcs[g].pinned == me.pinned && r.gcs[g].dryRun == me.dryRun && r.gcs[g].todo == me.todo[1..]
        && (r.gcs[g].half.Some? ==> r.gcs[g].half.value !in me.pinned && !me.dryRun)
  {
    hide Wanted, Pinned;
  }

  /** And what it makes of the rest. */
  lemma LookOthers(s: State, h: nat, refused: bool, g: nat)
    requires h in s.gcs && s.gcs[h].todo != [] && s.gcs[h].half.None? && h != g
    ensures var r := LookStep(s, h, refused);
      r.images <= s.images && (g in r.gcs <==> g in s.gcs) && (g in s.gcs ==> r.gcs[g] == s.gcs[g])
  {
    hide Wanted, Pinned;
  }

  lemma StepGoesOn(s: State, step: Step, g: nat, a: Sweeper)
    requires g in s.gcs ==> GoesOn(a, s.gcs[g])
    requires !(step.Begin? && step.g == g)
    ensures g in Next(s, step).gcs ==> g in s.gcs && GoesOn(a, Next(s, step).gcs[g])
  {
    if OfGc(step, g) {
      if g in s.gcs && step.Look? && s.gcs[g].todo != [] && s.gcs[g].half.None? {
        LookOwn(s, g, step.refused);
      }
      hide LookStep, Total, Pinned;
    } else {
      OtherStep(s, step, g);
      hide Next, GoesOn;
    }
  }

  /** The steps of others leave a gc as it is; only a put brings an image back. */
  lemma OtherStep(s: State, step: Step, g: nat)
    requires !OfGc(step, g) && !(step.Begin? && step.g == g)
    ensures g in Next(s, step).gcs <==> g in s.gcs
    ensures g in s.gcs ==> Next(s, step).gcs[g] == s.gcs[g]
    ensures forall key :: step != Create(key) && key !in s.images ==> key !in Next(s, step).images
  {
    if step.Look? && step.g in s.gcs && s.gcs[step.g].todo != [] && s.gcs[step.g].half.None? {
      LookOthers(s, step.g, step.refused, g);
    }
    hide LookStep, Total, Pinned;
  }

  /** Over every interleaving. */
  lemma {:induction false} RunGoesOn(s: State, steps: seq<Step>, g: nat)
    requires g in s.gcs && s.gcs[g].half.None? && NoBegin(steps, g)
    ensures g in Run(s, steps).gcs ==> GoesOn(s.gcs[g], Run(s, steps).gcs[g])
    decreases |steps|
  {
    if steps == [] {
      RunNone(s);
    } else {
      var n := |steps| - 1;
      hide Run, Next, GoesOn;
      RunGoesOn(s, steps[..n], g);
      StepGoesOn(Run(s, steps[..n]), steps[n], g, s.gcs[g]);
      RunSnoc(s, steps[..n], steps[n]);
      assert steps == steps[..n] + [steps[n]];
    }
  }

  /** Image and metadata of `key` are as they were. */
  predicate Untouched(a: State, b: State, key: Key) {
    && (key in b.images <==> key in a.images) && (key in b.meta <==> key in a.meta)
    && (key in a.meta && key in b.meta ==> b.meta[key] == a.meta[key])
  }

  /** A gc never touches an image that was pinned when it began, and a dry run touches
      none, however the steps of other processes come between its own. */
  lemma PinnedSurvives(s: State, begin: Step, steps: seq<Step>, key: Key, k: nat)
    requires begin.Begin? && begin.g !in s.gcs && (begin.dryRun || key in Pinned(s.clones)) && NoBegin(steps, begin.g)
    requires k < |steps| && OfGc(steps[k], begin.g)
    ensures var begun := Next(s, begin); Untouched(Run(begun, steps[..k]), Run(begun, steps[..k + 1]), key)
  {
    var begun, g := Next(s, begin), begin.g;
    assert g in begun.gcs && begun.gcs[g].pinned == Pinned(s.clones) && begun.gcs[g].dryRun == begin.dryRun && begun.gcs[g].half.None?;
    hide Run, Next, NoBegin, Pinned;
    BeginsNone(steps, g, k);
    RunGoesOn(begun, steps[..k], g);
    RunSnoc(begun, steps[..k], steps[k]);
    assert steps[..k + 1] == steps[..k] + [steps[k]];
    OwnStepSkips(Run(begun, steps[..k]), steps[k], g, key);
  }

  lemma BeginsNone(steps: seq<Step>, g: nat, k: nat)
    requires NoBegin(steps, g) && k <= |steps|
    ensures NoBegin(steps[..k], g)
  {
  }

  lemma OwnStepSkips(s: State, step: Step, g: nat, key: Key)
    requires OfGc(step, g)
    requires g in s.gcs ==>
      && (s.gcs[g].dryRun || key in s.gcs[g].pinned)
      && (s.gcs[g].half.Some? ==> s.gcs[g].half.value !in s.gcs[g].pinned && !s.gcs[g].dryRun)
    ensures Untouched(s, Next(s, step), key)
  {
    hide Wanted, Total, Pinned;
  }

  // ---- Reclaiming ----

  /** After the last clone of an image is gone, the next gc reclaims it: whatever the
      entries before it and whatever others do in between, when its turn comes, and it
      is wanted and still there without a clone, the dataset goes. */
  lemma Reclaimed(s: State, begin: Step, before: seq<(Key, Info)>, key: Key, info: Info, after: seq<(Key, Info)>, steps: seq<Step>)
    requires begin.Begin? && begin.todo == before + [(key, info)] + after && !begin.dryRun
    requires begin.g !in s.gcs && key !in Pinned(s.clones) && NoBegin(steps, begin.g)
    ensures var r, g := Run(Next(s, begin), steps), begin.g;
      && (g in r.gcs && |r.gcs[g].todo| == |after| + 1 ==> r.gcs[g].todo == [(key, info)] + after)
      && (g in r.gcs && |r.gcs[g].todo| == |after| + 1 && r.gcs[g].half.None? && Wanted(r.gcs[g], info)
          && key in r.images && key !in Pinned(r.clones) ==>
            var looked := Next(r, Look(g, false));
            key !in looked.images && g in looked.gcs && looked.gcs[g].half == Some(key))
  {
    var begun, g := Next(s, begin), begin.g;
    var todo := begin.todo;
    assert g in begun.gcs && begun.gcs[g].pinned == Pinned(s.clones) && begun.gcs[g].half.None? && begun.gcs[g].todo == todo
        && !begun.gcs[g].dryRun;
    hide Run, NoBegin, Pinned, Wanted, Total;
    RunGoesOn(begun, steps, g);
    assert todo[|todo| - (|after| + 1)..] == [(key, info)] + after;
    assert ([(key, info)] + after)[0] == (key, info);
  }

  /** Then the metadata goes too, whatever others do before that; and the image stays
      away unless someone puts it again. */
  lemma ReclaimedWhole(s: State, g: nat, key: Key, steps: seq<Step>)
    requires g in s.gcs && s.gcs[g].half == Some(key) && key !in s.images
    requires NoBegin(steps, g) && forall k :: 0 <= k < |steps| ==> !OfGc(steps[k], g)
    ensures var r := Next(Run(s, steps), Forget(g));
      && key !in r.meta && g in r.gcs && r.gcs[g].half.None? && r.gcs[g].removed == s.gcs[g].removed + [key]
      && ((forall k :: 0 <= k < |steps| ==> steps[k] != Create(key)) ==> key !in r.images)
  {
    OthersLeave(s, g, key, steps);
    hide Run;
  }

  lemma {:induction false} OthersLeave(s: State, g: nat, key: Key, steps: seq<Step>)
    requires g in s.gcs && s.gcs[g].half == Some(key) && key !in s.images
    requires NoBegin(steps, g) && forall k :: 0 <= k < |steps| ==> !OfGc(steps[k], g)
    ensures var r := Run(s, steps);
      && g in r.gcs && r.gcs[g] == s.gcs[g]
      && ((forall k :: 0 <= k < |steps| ==> steps[k] != Create(key)) ==> key !in r.images)
    decreases |steps|
  {
    if steps == [] {
      RunNone(s);
    } else {
      var n := |steps| - 1;
      hide Run, Next;
      OthersLeave(s, g, key, steps[..n]);
      OtherStep(Run(s, steps[..n]), steps[n], g);
      RunSnoc(s, steps[..n], steps[n]);
      assert steps == steps[..n] + [steps[n]];
    }
  }

  /** A gc's own steps, `n` entries further. */
  function Drive(g: nat, n: nat): seq<Step> {
    if n == 0 then [] else Drive(g, n - 1) + [Look(g, false), Forget(g)]
  }

  /** A gc left alone gets to every one of its entries, or gives up because a dataset
      is gone. */
  lemma {:induction false} GetsThere(s: State, g: nat, n: nat)
    requires g in s.gcs && s.gcs[g].half.None? && n <= |s.gcs[g].todo|
    ensures var r := Run(s, Drive(g, n)); g in r.gcs ==> r.gcs[g].half.None? && |r.gcs[g].todo| == |s.gcs[g].todo| - n
  {
    if n == 0 {
      RunNone(s);
    } else {
      hide Run, Next;
      GetsThere(s, g, n - 1);
      var front := Drive(g, n - 1);
      RunSnoc(s, front, Look(g, false));
      RunSnoc(s, front + [Look(g, false)], Forget(g));
      assert front + [Look(g, false), Forget(g)] == front + [Look(g, false)] + [Forget(g)];
      OneEntry(Run(s, front), g);
    }
  }

  lemma OneEntry(s: State, g: nat)
    requires g in s.gcs ==> s.gcs[g].half.None? && s.gcs[g].todo != []
    ensures var r := Next(Next(s, Look(g, false)), Forget(g));
      g in r.gcs ==> g in s.gcs && r.gcs[g].half.None? && |r.gcs[g].todo| == |s.gcs[g].todo| - 1
  {
    if g in s.gcs {
      LookOwn(s, g, false);
    }
    hide LookStep, Total, Pinned;
  }
}
