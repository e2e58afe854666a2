/**
 Planning a sync from a Paperless instance into a library
 (internal/docsync/docsync.go): the decision for every document shown and the
 retirement of those that no longer are. Times are integers.
 */
module DocSync {
  import opened Text
  import opened Numerals

  datatype Shown = Shown(id: int, modified: int, original: string, archived: string)

  datatype Held = Held(docId: string, source: string, ingestedAt: int)

  datatype Status = Queued | Running | Failed | Finished

  /** A job; updatedAt is None where it does not parse as a time. */
  datatype Job = Job(source: string, status: Status, permanent: bool, updatedAt: Option<int>)

  /** What an operator decides; supported are the file names that can be read. */
  datatype Options = Options(supported: set<string>, prefix: string, preferArchive: bool, allowEmpty: bool)

  datatype Kind = Push | Skip | Retire

  datatype Reason = NoReason | BeingRead | RefusedBefore | Unchanged | NoCopy

  datatype Action = Action(kind: Kind, key: string, reason: Reason, filename: string, docId: string, id: int, original: bool)

  const SCHEME := "upload:"

  function Target(key: string): string {
    SCHEME + key
  }

  /** A number as strconv.Itoa writes it, negative ones too. */
  function Numeral(n: int): string {
    if n < 0 then "-" + Itoa(-n) else Itoa(n)
  }

  function Key(o: Options, id: int): string {
    o.prefix + "-" + Numeral(id)
  }

  predicate HasPrefix(s: string, prefix: string) {
    |prefix| <= |s| && s[..|prefix|] == prefix
  }

  // ------------------------------------------------------------------------- the queue

  /** Of the first n jobs, newest first, the first that is of the source. */
  function LatestOf(jobs: seq<Job>, n: nat, source: string): Option<Job>
    requires n <= |jobs|
  {
    if n == 0 then None
    else if LatestOf(jobs, n - 1, source).Some? then LatestOf(jobs, n - 1, source)
    else if jobs[n - 1].source == source then Some(jobs[n - 1]) else None
  }

  function Latest(jobs: seq<Job>, source: string): Option<Job> {
    LatestOf(jobs, |jobs|, source)
  }

  predicate IsBusy(j: Option<Job>) {
    j.Some? && (j.value.status.Queued? || j.value.status.Running?)
  }

  /** When a source was refused for good, if its latest job says so. */
  function RefusedAt(j: Option<Job>): Option<int> {
    if j.Some? && j.value.status.Failed? && j.value.permanent then j.value.updatedAt else None
  }

  datatype Queue = Queue(busy: set<string>, refused: map<string, int>)

  /** The queue says of a source just what its latest job does. */
  ghost predicate Says(q: Queue, source: string, latest: Option<Job>) {
    && (source in q.busy <==> IsBusy(latest))
    && (source in q.refused <==> RefusedAt(latest).Some?)
    && (source in q.refused ==> q.refused[source] == RefusedAt(latest).value)
  }

  ghost predicate QueueOf(q: Queue, jobs: seq<Job>) {
    forall source :: Says(q, source, Latest(jobs, source))
  }

  /** A source nothing is known of yet becomes busy, refused or neither, as the job has it. */
  method Note(q: Queue, j: Job) returns (noted: Queue)
    requires Says(q, j.source, None)
    ensures Says(noted, j.source, Some(j))
    ensures forall source :: source != j.source ==>
              (source in noted.busy <==> source in q.busy) && (source in noted.refused <==> source in q.refused)
              && (source in q.refused ==> noted.refused[source] == q.refused[source])
  {
    noted := q;
    if j.status.Queued? || j.status.Running? {
      noted := noted.(busy := noted.busy + {j.source});
    } else if j.status.Failed? && j.permanent && j.updatedAt.Some? {
      noted := noted.(refused := noted.refused[j.source := j.updatedAt.value]);
    }
  }

  /** Noting each source's first job, and no later one, makes the queue say what Latest does. */
  method ReadQueue(jobs: seq<Job>) returns (q: Queue)
    ensures QueueOf(q, jobs)
  {
    q := Queue({}, map[]);
    var seen: set<string> := {};
    for i := 0 to |jobs|
      invariant forall source :: source in seen <==> LatestOf(jobs, i, source).Some?
      invariant forall source :: Says(q, source, LatestOf(jobs, i, source))
    {
      if jobs[i].source !in seen {
        seen := seen + {jobs[i].source};
        assert Says(q, jobs[i].source, LatestOf(jobs, i, jobs[i].source));
        q := Note(q, jobs[i]);
      }
    }
  }

  // -------------------------------------------------------------------------- the plan

  /** The document the library holds for a source; of several the last listed. */
  function HeldFor(held: seq<Held>, n: nat, source: string): Option<Held>
    requires n <= |held|
  {
    if n == 0 then None else if held[n - 1].source == source then Some(held[n - 1]) else HeldFor(held, n - 1, source)
  }

  /** The file to push and whether it is the original, or none that can be read. */
  function Choose(d: Shown, o: Options): (string, bool) {
    var hasArchive := d.archived != "" && d.archived in o.supported;
    if o.preferArchive && hasArchive then (d.archived, false)
    else if d.original in o.supported then (d.original, true)
    else if hasArchive then (d.archived, false)
    else ("", false)
  }

  /** What one document needs, given its latest job and what is held for it. */
  function Decision(d: Shown, key: string, latest: Option<Job>, held: Option<Held>, o: Options): Action {
    var action := Action(Push, key, NoReason, "", "", d.id, false);
    if IsBusy(latest) then action.(kind := Skip, reason := BeingRead)
    else if RefusedAt(latest).Some? && !(d.modified > RefusedAt(latest).value) then action.(kind := Skip, reason := RefusedBefore)
    else if held.Some? && held.value.ingestedAt > d.modified then
      action.(kind := Skip, reason := Unchanged, docId := held.value.docId)
    else
      var (filename, original) := Choose(d, o);
      var chosen := action.(filename := filename, original := original);
      if filename == "" then chosen.(kind := Skip, reason := NoCopy) else chosen
  }

  function DecisionFor(d: Shown, held: seq<Held>, jobs: seq<Job>, o: Options): Action {
    var target := Target(Key(o, d.id));
    Decision(d, Key(o, d.id), Latest(jobs, target), HeldFor(held, |held|, target), o)
  }

  function Decisions(shown: seq<Shown>, n: nat, held: seq<Held>, jobs: seq<Job>, o: Options): (all: seq<Action>)
    requires n <= |shown|
    ensures |all| == n
  {
    if n == 0 then [] else Decisions(shown, n - 1, held, jobs, o) + [DecisionFor(shown[n - 1], held, jobs, o)]
  }

  /** A source one of the first n documents shown is pushed as. */
  predicate IsShown(shown: seq<Shown>, n: nat, o: Options, source: string)
    requires n <= |shown|
  {
    exists i :: 0 <= i < n && Target(Key(o, shown[i].id)) == source
  }

  predicate Retires(d: Held, shown: seq<Shown>, jobs: seq<Job>, o: Options) {
    && HasPrefix(d.source, Target(o.prefix + "-"))
    && !IsShown(shown, |shown|, o, d.source)
    && !IsBusy(Latest(jobs, d.source))
  }

  function Retirement(d: Held): Action {
    Action(Retire, if HasPrefix(d.source, SCHEME) then d.source[|SCHEME|..] else d.source, NoReason, "", d.docId, 0, false)
  }

  function Retirements(held: seq<Held>, n: nat, shown: seq<Shown>, jobs: seq<Job>, o: Options): seq<Action>
    requires n <= |held|
  {
    if n == 0 then []
    else Retirements(held, n - 1, shown, jobs, o) + if Retires(held[n - 1], shown, jobs, o) then [Retirement(held[n - 1])] else []
  }

  /** One decision a document shown, in order, then the retirements. */
  function PlanOf(shown: seq<Shown>, held: seq<Held>, jobs: seq<Job>, o: Options): seq<Action> {
    Decisions(shown, |shown|, held, jobs, o) + Retirements(held, |held|, shown, jobs, o)
  }

  // ----------------------------------------------------------------- as the loops do it

  ghost predicate HeldMap(bySource: map<string, Held>, held: seq<Held>, n: nat)
    requires n <= |held|
  {
    forall source ::
      && (source in bySource <==> HeldFor(held, n, source).Some?)
      && (source in bySource ==> bySource[source] == HeldFor(held, n, source).value)
  }

  method Decide(d: Shown, key: string, bySource: map<string, Held>, q: Queue, o: Options, ghost held: seq<Held>, ghost jobs: seq<Job>)
    returns (action: Action)
    requires QueueOf(q, jobs) && HeldMap(bySource, held, |held|)
    ensures action == Decision(d, key, Latest(jobs, Target(key)), HeldFor(held, |held|, Target(key)), o)
  {
    action := Action(Push, key, NoReason, "", "", d.id, false);
    var target := Target(key);
    assert Says(q, target, Latest(jobs, target));
    if target in q.busy {
      return action.(kind := Skip, reason := BeingRead);
    }
    if target in q.refused && !(d.modified > q.refused[target]) {
      return action.(kind := Skip, reason := RefusedBefore);
    }
    if target in bySource && bySource[target].ingestedAt > d.modified {
      return action.(kind := Skip, reason := Unchanged, docId := bySource[target].docId);
    }
    var (filename, original) := Choose(d, o);
    action := action.(filename := filename, original := original);
    if filename == "" {
      action := action.(kind := Skip, reason := NoCopy);
    }
  }

  method RetireLoop(held: seq<Held>, keep: set<string>, q: Queue, o: Options, ghost shown: seq<Shown>, ghost jobs: seq<Job>)
    returns (actions: seq<Action>)
    requires Keeps(keep, shown, |shown|, o) && QueueOf(q, jobs)
    ensures actions == Retirements(held, |held|, shown, jobs, o)
  {
    var ours := Target(o.prefix + "-");
    actions := [];
    for i := 0 to |held|
      invariant actions == Retirements(held, i, shown, jobs, o)
    {
      var d := held[i];
      assert Says(q, d.source, Latest(jobs, d.source));
      if !(!HasPrefix(d.source, ours) || d.source in keep || d.source in q.busy) {
        actions := actions + [Retirement(d)];
      }
    }
  }

  method BySource(held: seq<Held>) returns (bySource: map<string, Held>)
    ensures HeldMap(bySource, held, |held|)
  {
    bySource := map[];
    for i := 0 to |held|
      invariant HeldMap(bySource, held, i)
    {
      bySource := bySource[held[i].source := held[i]];
    }
  }

  ghost predicate Keeps(keep: set<string>, shown: seq<Shown>, n: nat, o: Options)
    requires n <= |shown|
  {
    forall source :: source in keep <==> IsShown(shown, n, o, source)
  }

  lemma KeepsOne(keep: set<string>, shown: seq<Shown>, n: nat, o: Options)
    requires n < |shown| && Keeps(keep, shown, n, o)
    ensures Keeps(keep + {Target(Key(o, shown[n].id))}, shown, n + 1, o)
  {
  }

  method DecideLoop(shown: seq<Shown>, bySource: map<string, Held>, q: Queue, o: Options, ghost held: seq<Held>, ghost jobs: seq<Job>)
    returns (actions: seq<Action>, keep: set<string>)
    requires QueueOf(q, jobs) && HeldMap(bySource, held, |held|)
    ensures actions == Decisions(shown, |shown|, held, jobs, o) && Keeps(keep, shown, |shown|, o)
  {
    actions, keep := [], {};
    for i := 0 to |shown|
      invariant Keeps(keep, shown, i, o) && actions == Decisions(shown, i, held, jobs, o)
    {
      var key := Key(o, shown[i].id);
      KeepsOne(keep, shown, i, o);
      keep := keep + {Target(key)};
      var action := Decide(shown[i], key, bySource, q, o, held, jobs);
      actions := actions + [action];
    }
  }

  /** The maps and loops together compute PlanOf. */
  method Plan(shown: seq<Shown>, held: seq<Held>, jobs: seq<Job>, o: Options) returns (actions: seq<Action>)
    ensures actions == PlanOf(shown, held, jobs, o)
  {
    var bySource := BySource(held);
    var q := ReadQueue(jobs);
    var keep;
    actions, keep := DecideLoop(shown, bySource, q, o, held, jobs);
    var retired := RetireLoop(held, keep, q, o, shown, jobs);
    actions := actions + retired;
  }

  /** The plan, or None where it would retire documents for an instance that shows none. */
  method SyncPlan(shown: seq<Shown>, held: seq<Held>, jobs: seq<Job>, o: Options) returns (actions: Option<seq<Action>>)
    ensures actions.None? <==> shown == [] && !o.allowEmpty && exists d :: d in held && Retires(d, shown, jobs, o)
    ensures actions.Some? ==> actions.value == PlanOf(shown, held, jobs, o)
  {
    var planned := Plan(shown, held, jobs, o);
    RetirementsExist(held, shown, jobs, o);
    actions := if shown == [] && planned != [] && !o.allowEmpty then None else Some(planned);
  }

  // -------------------------------------------------------------------- what a plan means

  lemma {:induction false} RetirementsSome(held: seq<Held>, n: nat, shown: seq<Shown>, jobs: seq<Job>, o: Options, k: nat)
    requires k < n <= |held| && Retires(held[k], shown, jobs, o)
    ensures Retirement(held[k]) in Retirements(held, n, shown, jobs, o)
  {
    if k < n - 1 {
      RetirementsSome(held, n - 1, shown, jobs, o, k);
    }
  }

  lemma {:induction false} RetirementFrom(held: seq<Held>, n: nat, shown: seq<Shown>, jobs: seq<Job>, o: Options, a: Action) returns (k: nat)
    requires n <= |held| && a in Retirements(held, n, shown, jobs, o)
    ensures k < n && Retires(held[k], shown, jobs, o) && a == Retirement(held[k])
  {
    if Retires(held[n - 1], shown, jobs, o) && a == Retirement(held[n - 1]) {
      k := n - 1;
    } else {
      k := RetirementFrom(held, n - 1, shown, jobs, o, a);
    }
  }

  /** Some document held is retired exactly when the plan has a retirement. */
  lemma RetirementsExist(held: seq<Held>, shown: seq<Shown>, jobs: seq<Job>, o: Options)
    ensures Retirements(held, |held|, shown, jobs, o) != [] <==> exists d :: d in held && Retires(d, shown, jobs, o)
  {
    var all := Retirements(held, |held|, shown, jobs, o);
    if all != [] {
      var k := RetirementFrom(held, |held|, shown, jobs, o, all[0]);
      assert held[k] in held;
    }
    if d :| d in held && Retires(d, shown, jobs, o) {
      var k :| 0 <= k < |held| && held[k] == d;
      RetirementsSome(held, |held|, shown, jobs, o, k);
    }
  }

  lemma {:induction false} DecisionAt(shown: seq<Shown>, n: nat, held: seq<Held>, jobs: seq<Job>, o: Options, i: nat)
    requires i < n <= |shown|
    ensures |Decisions(shown, n, held, jobs, o)| == n && Decisions(shown, n, held, jobs, o)[i] == DecisionFor(shown[i], held, jobs, o)
    decreases n
  {
    if n > 1 {
      DecisionAt(shown, n - 1, held, jobs, o, if i < n - 1 then i else n - 2);
    }
  }

  /** An action of a plan is the decision for a document shown, or the retirement of one held. */
  lemma ActionFrom(shown: seq<Shown>, held: seq<Held>, jobs: seq<Job>, o: Options, a: Action) returns (decided: bool, k: nat)
    requires a in PlanOf(shown, held, jobs, o)
    ensures decided ==> k < |shown| && a == DecisionFor(shown[k], held, jobs, o)
    ensures !decided ==> k < |held| && Retires(held[k], shown, jobs, o) && a == Retirement(held[k])
  {
    var decisions := Decisions(shown, |shown|, held, jobs, o);
    decided := a in decisions;
    if decided {
      var i :| 0 <= i < |decisions| && decisions[i] == a;
      DecisionAt(shown, |shown|, held, jobs, o, i);
      k := i;
    } else {
      k := RetirementFrom(held, |held|, shown, jobs, o, a);
    }
  }

  /** A source whose latest job is queued or running is neither pushed nor retired. */
  lemma BusyLeftAlone(shown: seq<Shown>, held: seq<Held>, jobs: seq<Job>, o: Options, a: Action)
    requires a in PlanOf(shown, held, jobs, o) && IsBusy(Latest(jobs, Target(a.key)))
    ensures a.kind == Skip
  {
    var decided, k := ActionFrom(shown, held, jobs, o, a);
    if !decided {
      PrefixOfTarget(held[k].source, o.prefix + "-");
    }
  }

  /** A source under a target's prefix is the target of its own key. */
  lemma PrefixOfTarget(source: string, start: string)
    requires HasPrefix(source, Target(start))
    ensures HasPrefix(source, SCHEME) && Target(source[|SCHEME|..]) == source && HasPrefix(source[|SCHEME|..], start)
  {
    assert source[..|SCHEME|] == Target(start)[..|SCHEME|] == SCHEME;
    assert source[|SCHEME|..][..|start|] == source[..|Target(start)|][|SCHEME|..] == start;
  }

  // ------------------------------------------------------------------------ whose keys

  /** Distinct documents have distinct keys. */
  lemma KeysDiffer(o: Options, a: int, b: int)
    ensures Key(o, a) == Key(o, b) <==> a == b
  {
    if Key(o, a) == Key(o, b) {
      assert Key(o, a)[|o.prefix| + 1..] == Numeral(a) && Key(o, b)[|o.prefix| + 1..] == Numeral(b);
      NumeralReads(if a < 0 then -a else a);
      NumeralReads(if b < 0 then -b else b);
      assert a < 0 ==> Numeral(a)[1..] == Itoa(-a);
      assert b < 0 ==> Numeral(b)[1..] == Itoa(-b);
      assert Numeral(a)[0] == '-' <==> a < 0;
    }
  }

  /** Whether the keys of one prefix look like another's. */
  predicate LooksLike(p1: string, p2: string, id: int) {
    HasPrefix(p2 + "-", p1 + "-") || (id < 0 && p1 == p2 + "-")
  }

  /**
   A document of prefix p2 looks like one of prefix p1 exactly when p1 and a hyphen
   start p2 and a hyphen, or, its number being negative, when p1 is p2 and a hyphen.
   */
  lemma PrefixIsolates(p1: string, p2: string, id: int)
    ensures HasPrefix(Target(p2 + "-" + Numeral(id)), Target(p1 + "-")) <==> LooksLike(p1, p2, id)
  {
    var key, start := p2 + "-" + Numeral(id), p1 + "-";
    assert Target(key)[|SCHEME|..] == key;
    if HasPrefix(Target(key), Target(start)) {
      PrefixOfTarget(Target(key), start);
      assert HasPrefix(key, start);
      PrefixFits(p1, p2, id);
    }
    if HasPrefix(p2 + "-", start) {
      assert Target(key)[..|Target(start)|] == SCHEME + (p2 + "-")[..|start|];
    } else if id < 0 && p1 == p2 + "-" {
      assert Numeral(id)[0] == '-';
      assert Target(key)[..|Target(start)|] == Target(start);
    }
  }

  /** Past p2 and its hyphen a key has only digits, but for the sign of a negative number. */
  lemma HyphenPast(p2: string, id: int, i: nat)
    requires |p2| < i < |p2 + "-" + Numeral(id)| && (p2 + "-" + Numeral(id))[i] == '-'
    ensures id < 0 && i == |p2| + 1
  {
    NumeralReads(if id < 0 then -id else id);
    assert (p2 + "-" + Numeral(id))[i] == Numeral(id)[i - |p2| - 1];
  }

  lemma PrefixFits(p1: string, p2: string, id: int)
    requires HasPrefix(p2 + "-" + Numeral(id), p1 + "-")
    ensures LooksLike(p1, p2, id)
  {
    var key, start := p2 + "-" + Numeral(id), p1 + "-";
    if |p1| <= |p2| {
      assert (p2 + "-")[..|start|] == key[..|start|];
    } else {
      assert key[|p1|] == key[..|start|][|p1|] == '-';
      HyphenPast(p2, id, |p1|);
      assert key[..|p1|] == key[..|start|][..|p1|] == p1;
      assert key[..|p1|] == p2 + "-";
    }
  }

  /** A sync with prefix p1 retires no document of prefix p2, of a number from 0 up, unless p1- starts p2-. */
  lemma RetiresOwnOnly(shown: seq<Shown>, held: seq<Held>, jobs: seq<Job>, o: Options, p2: string, id: nat, d: Held)
    requires d.source == Target(p2 + "-" + Numeral(id)) && Retires(d, shown, jobs, o)
    ensures HasPrefix(p2 + "-", o.prefix + "-")
  {
    PrefixIsolates(o.prefix, p2, id);
  }

  /** What a sync of a prefix decides, with nothing shown or queued, of one document another prefix pushed. */
  function LonePlan(prefix: string, d: Held): seq<Action> {
    PlanOf([], [d], [], Options({}, prefix, false, true))
  }

  function HeldAs(prefix: string, id: int): Held {
    Held("held", Target(prefix + "-" + Numeral(id)), 0)
  }

  /** It is retired exactly when its key looks like one of the sync's own. */
  lemma LonePlanRetires(p1: string, p2: string, id: int)
    ensures LonePlan(p1, HeldAs(p2, id)) == if LooksLike(p1, p2, id) then [Retirement(HeldAs(p2, id))] else []
  {
    PrefixIsolates(p1, p2, id);
    var o, d := Options({}, p1, false, true), HeldAs(p2, id);
    assert Retires(d, [], [], o) <==> LooksLike(p1, p2, id);
    assert Retirements([d], 1, [], [], o) == Retirements([d], 0, [], [], o) + if Retires(d, [], [], o) then [Retirement(d)] else [];
  }

  /** The sync of prefix a retires the document a-b-1 that the sync of prefix a-b pushed. */
  lemma HyphensCross()
    ensures LonePlan("a", HeldAs("a-b", 1)) == [Retirement(HeldAs("a-b", 1))]
  {
    assert ("a-b" + "-")[..2] == "a" + "-";
    LonePlanRetires("a", "a-b", 1);
  }

  /** For a negative number the prefix rule is not enough: a- retires the document a--5 of prefix a. */
  lemma NegativeNumbersCross()
    ensures LonePlan("a-", HeldAs("a", -5)) == [Retirement(HeldAs("a", -5))] && !HasPrefix("a" + "-", "a-" + "-")
  {
    LonePlanRetires("a-", "a", -5);
  }

  // ------------------------------------------------------------------------ convergence

  /** The library and the queue a plan reads. */
  datatype Library = Library(held: seq<Held>, jobs: seq<Job>) {
    function HeldOf(source: string): Option<Held> {
      HeldFor(held, |held|, source)
    }
  }

  function TargetOf(d: Shown, o: Options): string {
    Target(Key(o, d.id))
  }

  predicate Pushes(d: Shown, lib: Library, o: Options) {
    DecisionFor(d, lib.held, lib.jobs, o).kind == Push
  }

  predicate IsPushed(shown: seq<Shown>, lib: Library, o: Options, source: string) {
    exists i :: 0 <= i < |shown| && TargetOf(shown[i], o) == source && Pushes(shown[i], lib, o)
  }

  predicate ReadAfter(d: Shown, lib: Library, o: Options) {
    lib.HeldOf(TargetOf(d, o)).Some? && lib.HeldOf(TargetOf(d, o)).value.ingestedAt > d.modified
  }

  /**
   The plan has been carried out: each document pushed has been read after its
   modification time, each retired is gone, and no other source has changed.
   */
  ghost predicate Applied(shown: seq<Shown>, lib: Library, o: Options, next: Library) {
    && (forall i :: 0 <= i < |shown| && Pushes(shown[i], lib, o) ==> ReadAfter(shown[i], next, o))
    && (forall source :: !IsPushed(shown, lib, o, source) ==> Latest(next.jobs, source) == Latest(lib.jobs, source))
    && (forall source :: IsShown(shown, |shown|, o, source) && !IsPushed(shown, lib, o, source) ==>
                           next.HeldOf(source) == lib.HeldOf(source))
    && (forall d :: d in next.held ==> IsPushed(shown, lib, o, d.source) || (d in lib.held && !Retires(d, shown, lib.jobs, o)))
  }

  /** Once a document of the same number has been pushed and read, this one is not pushed. */
  lemma ReadTogether(d: Shown, twin: Shown, lib: Library, o: Options, next: Library)
    requires TargetOf(d, o) == TargetOf(twin, o) && Pushes(twin, lib, o) && ReadAfter(twin, next, o)
    requires Pushes(d, lib, o) ==> ReadAfter(d, next, o)
    ensures !Pushes(d, next, o)
  {
    KeysDiffer(o, d.id, twin.id);
  }

  lemma NextPushesNothing(shown: seq<Shown>, lib: Library, o: Options, next: Library, i: nat)
    requires Applied(shown, lib, o, next) && i < |shown|
    ensures !Pushes(shown[i], next, o)
  {
    var source := TargetOf(shown[i], o);
    if IsPushed(shown, lib, o, source) {
      var k :| 0 <= k < |shown| && TargetOf(shown[k], o) == source && Pushes(shown[k], lib, o);
      ReadTogether(shown[i], shown[k], lib, o, next);
    }
  }

  lemma PushOrSkip(d: Shown, lib: Library, o: Options)
    ensures !Pushes(d, lib, o) ==> DecisionFor(d, lib.held, lib.jobs, o).kind == Skip
  {
  }

  lemma NextRetiresNothing(shown: seq<Shown>, lib: Library, o: Options, next: Library, d: Held)
    requires Applied(shown, lib, o, next) && d in next.held
    ensures !Retires(d, shown, next.jobs, o)
  {
    if IsPushed(shown, lib, o, d.source) {
      assert IsShown(shown, |shown|, o, d.source);
    }
  }

  /** Planning converges: once a plan is carried out, the next one pushes and retires nothing. */
  lemma PlanningConverges(shown: seq<Shown>, lib: Library, o: Options, next: Library, a: Action)
    requires Applied(shown, lib, o, next) && a in PlanOf(shown, next.held, next.jobs, o)
    ensures a.kind == Skip
  {
    var decided, k := ActionFrom(shown, next.held, next.jobs, o, a);
    if decided {
      NextPushesNothing(shown, lib, o, next, k);
      PushOrSkip(shown[k], next, o);
    } else {
      NextRetiresNothing(shown, lib, o, next, next.held[k]);
    }
  }
}
