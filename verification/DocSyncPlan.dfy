/**
 What a plan decides, in terms of the documents shown, the library's list and the queue's
 alone: which documents are pushed and as which file, why the others are passed over, and
 what is retired.
 */
module SyncPlans {
  import opened Sequences
  import opened Text
  import opened DocSync

  // -------------------------------------------------------------- what the lists say

  /** The first job listed of a source, which is its latest. */
  predicate NewestJob(jobs: seq<Job>, source: string, i: nat) {
    i < |jobs| && jobs[i].source == source && forall j :: 0 <= j < i ==> jobs[j].source != source
  }

  /** The source's newest job is queued or running. */
  ghost predicate InHand(jobs: seq<Job>, source: string) {
    exists i: nat :: NewestJob(jobs, source, i) && (jobs[i].status == Queued || jobs[i].status == Running)
  }

  /** The source's newest job failed for good, no earlier than the document was last modified. */
  ghost predicate TurnedDown(jobs: seq<Job>, source: string, modified: int) {
    exists i: nat :: NewestJob(jobs, source, i) && jobs[i].status == Failed && jobs[i].permanent
                && jobs[i].updatedAt.Some? && modified <= jobs[i].updatedAt.value
  }

  /** The last document listed of a source. */
  predicate LastListed(held: seq<Held>, source: string, k: nat) {
    k < |held| && held[k].source == source && forall j :: k < j < |held| ==> held[j].source != source
  }

  /** That document is of a reading after the modification. */
  predicate UpToDate(held: seq<Held>, source: string, modified: int, k: nat) {
    LastListed(held, source, k) && held[k].ingestedAt > modified
  }

  /** An archived copy that can be read is there. */
  predicate HasArchive(d: Shown, o: Options) {
    d.archived != "" && d.archived in o.supported
  }

  /** The file is the original, if it can be read and the archived copy is not to be preferred; or else the archived copy. */
  predicate FileToPush(d: Shown, o: Options, name: string, original: bool) {
    && name != ""
    && if original then name == d.original && d.original in o.supported && !(o.preferArchive && HasArchive(d, o))
       else name == d.archived && HasArchive(d, o) && (o.preferArchive || d.original !in o.supported)
  }

  lemma {:induction false} LatestIsNewest(jobs: seq<Job>, n: nat, source: string)
    requires n <= |jobs|
    ensures LatestOf(jobs, n, source).Some? ==>
              exists i :: 0 <= i < n && NewestJob(jobs, source, i) && LatestOf(jobs, n, source) == Some(jobs[i])
    ensures LatestOf(jobs, n, source).None? ==> forall i :: 0 <= i < n ==> jobs[i].source != source
  {
    if n > 0 {
      LatestIsNewest(jobs, n - 1, source);
      if LatestOf(jobs, n - 1, source).None? && jobs[n - 1].source == source {
        assert NewestJob(jobs, source, n - 1);
      }
    }
  }

  lemma NewestIs(jobs: seq<Job>, source: string, i: nat)
    requires NewestJob(jobs, source, i)
    ensures Latest(jobs, source) == Some(jobs[i])
  {
    LatestIsNewest(jobs, |jobs|, source);
  }

  lemma QueueMeans(jobs: seq<Job>, source: string, modified: int)
    ensures IsBusy(Latest(jobs, source)) <==> InHand(jobs, source)
    ensures RefusedAt(Latest(jobs, source)).Some? && modified <= RefusedAt(Latest(jobs, source)).value
            <==> TurnedDown(jobs, source, modified)
  {
    LatestIsNewest(jobs, |jobs|, source);
    forall i: nat | NewestJob(jobs, source, i)
      ensures Latest(jobs, source) == Some(jobs[i])
    {
      NewestIs(jobs, source, i);
    }
  }

  lemma {:induction false} HeldIsLast(held: seq<Held>, n: nat, source: string)
    requires n <= |held|
    ensures HeldFor(held, n, source).Some? ==>
              exists k :: 0 <= k < n && held[k].source == source && HeldFor(held, n, source) == Some(held[k])
                          && forall j :: k < j < n ==> held[j].source != source
    ensures HeldFor(held, n, source).None? ==> forall j :: 0 <= j < n ==> held[j].source != source
  {
    if n > 0 {
      HeldIsLast(held, n - 1, source);
    }
  }

  lemma LastListedIs(held: seq<Held>, source: string, k: nat)
    requires LastListed(held, source, k)
    ensures HeldFor(held, |held|, source) == Some(held[k])
  {
    HeldIsLast(held, |held|, source);
  }

  lemma HeldMeans(held: seq<Held>, source: string, modified: int)
    ensures var h := HeldFor(held, |held|, source);
            h.Some? && h.value.ingestedAt > modified <==> exists k: nat :: UpToDate(held, source, modified, k)
  {
    HeldIsLast(held, |held|, source);
    var h := HeldFor(held, |held|, source);
    if h.Some? {
      var k: nat :| k < |held| && LastListed(held, source, k) && h == Some(held[k]);
      assert UpToDate(held, source, modified, k) <==> h.value.ingestedAt > modified;
    }
    if k: nat :| UpToDate(held, source, modified, k) {
      LastListedIs(held, source, k);
    }
  }

  lemma ChooseMeans(d: Shown, o: Options)
    ensures var (name, original) := Choose(d, o);
            if name == "" then forall n, b :: !FileToPush(d, o, n, b) else FileToPush(d, o, name, original)
  {
  }

  // ------------------------------------------------------------------ what is decided

  /** The decision for a document shown, against the lists. */
  ghost predicate Decided(a: Action, d: Shown, held: seq<Held>, jobs: seq<Job>, o: Options) {
    var key := o.prefix + "-" + Numeral(d.id);
    var source := "upload:" + key;
    && a.key == key && a.id == d.id
    && if InHand(jobs, source) then a.kind == Skip && a.reason == BeingRead
       else if TurnedDown(jobs, source, d.modified) then a.kind == Skip && a.reason == RefusedBefore
       else if exists k: nat :: UpToDate(held, source, d.modified, k)
       then a.kind == Skip && a.reason == Unchanged
            && forall k: nat :: UpToDate(held, source, d.modified, k) ==> a.docId == held[k].docId
       else if exists name, original :: FileToPush(d, o, name, original)
       then a.kind == Push && a.reason == NoReason && FileToPush(d, o, a.filename, a.original)
       else a.kind == Skip && a.reason == NoCopy
  }

  lemma DecisionMeans(d: Shown, held: seq<Held>, jobs: seq<Job>, o: Options)
    ensures Decided(DecisionFor(d, held, jobs, o), d, held, jobs, o)
  {
    var source := Target(Key(o, d.id));
    QueueMeans(jobs, source, d.modified);
    HeldMeans(held, source, d.modified);
    ChooseMeans(d, o);
    forall k: nat | UpToDate(held, source, d.modified, k)
      ensures HeldFor(held, |held|, source) == Some(held[k])
    {
      LastListedIs(held, source, k);
    }
  }

  /** A retirement of a document held: of its key and its identifier. */
  predicate RetiresHeld(a: Action, d: Held) {
    a.kind == Retire && "upload:" + a.key == d.source && a.docId == d.docId
  }

  /** The document is of this sync's keys, is no longer shown and is not being read. */
  ghost predicate Gone(d: Held, shown: seq<Shown>, jobs: seq<Job>, o: Options) {
    && (exists rest: string :: d.source == "upload:" + o.prefix + "-" + rest)
    && (forall i :: 0 <= i < |shown| ==> d.source != "upload:" + o.prefix + "-" + Numeral(shown[i].id))
    && !InHand(jobs, d.source)
  }

  lemma PrefixMeans(s: string, start: string)
    ensures HasPrefix(s, start) <==> exists rest: string :: s == start + rest
  {
    if HasPrefix(s, start) {
      assert s == start + s[|start|..];
    }
  }

  lemma SourceOf(prefix: string, rest: string)
    ensures Target(prefix + "-" + rest) == "upload:" + prefix + "-" + rest
    ensures Target(prefix + "-") == "upload:" + prefix + "-"
  {
    assert Target(prefix + "-" + rest) == "upload:" + (prefix + "-" + rest);
    assert Target(prefix + "-") == "upload:" + (prefix + "-");
  }

  lemma RetiresMeans(d: Held, shown: seq<Shown>, jobs: seq<Job>, o: Options)
    ensures Retires(d, shown, jobs, o) <==> Gone(d, shown, jobs, o)
    ensures Retires(d, shown, jobs, o) ==> RetiresHeld(Retirement(d), d)
  {
    SourceOf(o.prefix, "");
    PrefixMeans(d.source, Target(o.prefix + "-"));
    QueueMeans(jobs, d.source, 0);
    forall i | 0 <= i < |shown|
      ensures Target(Key(o, shown[i].id)) == "upload:" + o.prefix + "-" + Numeral(shown[i].id)
    {
      SourceOf(o.prefix, Numeral(shown[i].id));
    }
    if Retires(d, shown, jobs, o) {
      PrefixOfTarget(d.source, o.prefix + "-");
    }
  }

  /** Which of the documents held a plan retires, by offset, in the order they are listed. */
  ghost predicate RetiredAt(held: seq<Held>, n: nat, shown: seq<Shown>, jobs: seq<Job>, o: Options, at: seq<nat>)
    requires n <= |held|
  {
    && (forall j, m :: 0 <= j < m < |at| ==> at[j] < at[m])
    && (forall k: nat :: k in at <==> k < n && Gone(held[k], shown, jobs, o))
  }

  ghost predicate RetiresAll(retired: seq<Action>, held: seq<Held>, at: seq<nat>) {
    |retired| == |at| && forall j :: 0 <= j < |at| ==> at[j] < |held| && RetiresHeld(retired[j], held[at[j]])
  }

  lemma RetiredStep(held: seq<Held>, n: nat, shown: seq<Shown>, jobs: seq<Job>, o: Options, at: seq<nat>)
    requires 0 < n <= |held| && RetiredAt(held, n - 1, shown, jobs, o, at)
    ensures RetiredAt(held, n, shown, jobs, o, at + if Gone(held[n - 1], shown, jobs, o) then [n - 1] else [])
  {
    var more: seq<nat> := if Gone(held[n - 1], shown, jobs, o) then [n - 1] else [];
    forall k: nat
      ensures k in at + more <==> k < n && Gone(held[k], shown, jobs, o)
    {
      assert k in at + more <==> k in at || k in more;
    }
    forall j | 0 <= j < |at|
      ensures at[j] < n - 1
    {
      assert at[j] in at;
    }
  }

  lemma RetiresSnoc(retired: seq<Action>, held: seq<Held>, at: seq<nat>, k: nat)
    requires RetiresAll(retired, held, at) && k < |held| && RetiresHeld(Retirement(held[k]), held[k])
    ensures RetiresAll(retired + [Retirement(held[k])], held, at + [k])
  {
  }

  /** The retirements among the first n documents held, and the offsets of those retired. */
  ghost predicate RetiresFirst(held: seq<Held>, n: nat, shown: seq<Shown>, jobs: seq<Job>, o: Options, at: seq<nat>, retired: seq<Action>)
    requires n <= |held|
  {
    RetiredAt(held, n, shown, jobs, o, at) && RetiresAll(retired, held, at)
  }

  lemma RetiresMore(held: seq<Held>, n: nat, shown: seq<Shown>, jobs: seq<Job>, o: Options, at: seq<nat>, retired: seq<Action>)
      returns (more: seq<nat>)
    requires 0 < n <= |held| && RetiresFirst(held, n - 1, shown, jobs, o, at, retired)
    ensures RetiresFirst(held, n, shown, jobs, o, more,
                         retired + if Retires(held[n - 1], shown, jobs, o) then [Retirement(held[n - 1])] else [])
  {
    RetiresMeans(held[n - 1], shown, jobs, o);
    RetiredStep(held, n, shown, jobs, o, at);
    if Gone(held[n - 1], shown, jobs, o) {
      RetiresSnoc(retired, held, at, n - 1);
      more := at + [n - 1];
    } else {
      Nothing(at);
      Nothing(retired);
      more := at;
    }
  }

  lemma {:induction false} RetirementsMean(held: seq<Held>, n: nat, shown: seq<Shown>, jobs: seq<Job>, o: Options)
      returns (at: seq<nat>)
    requires n <= |held|
    ensures RetiresFirst(held, n, shown, jobs, o, at, Retirements(held, n, shown, jobs, o))
  {
    at := [];
    if n > 0 {
      var before := RetirementsMean(held, n - 1, shown, jobs, o);
      at := RetiresMore(held, n, shown, jobs, o, before, Retirements(held, n - 1, shown, jobs, o));
    }
  }

  /**
   A plan is one decision a document shown, in the order shown, then one retirement for
   each document held under this sync's keys that is neither shown nor being read, in the
   order held.
   */
  lemma PlanMeans(shown: seq<Shown>, held: seq<Held>, jobs: seq<Job>, o: Options) returns (at: seq<nat>)
    ensures RetiredAt(held, |held|, shown, jobs, o, at)
    ensures var plan := PlanOf(shown, held, jobs, o);
            && |plan| == |shown| + |at|
            && (forall i :: 0 <= i < |shown| ==> Decided(plan[i], shown[i], held, jobs, o))
            && RetiresAll(plan[|shown|..], held, at)
  {
    at := RetirementsMean(held, |held|, shown, jobs, o);
    var plan := PlanOf(shown, held, jobs, o);
    assert plan[|shown|..] == Retirements(held, |held|, shown, jobs, o);
    forall i | 0 <= i < |shown|
      ensures Decided(plan[i], shown[i], held, jobs, o)
    {
      DecisionAt(shown, |shown|, held, jobs, o, i);
      DecisionMeans(shown[i], held, jobs, o);
    }
  }
}
