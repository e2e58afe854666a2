/**
 Resolving identities to accounts (internal/account/account.go), any number of calls
 at once. Each store operation is one atomic step that keeps the contract its
 interface states, with the unique index on identities as a map; a step may report
 a failure before taking effect or after. User ids are arbitrary, so two calls may
 draw the same one.
 */
module Accounts {
  import opened Text

  datatype Identity = Identity(issuer: string, subject: string)

  datatype Policy = Policy(owner: Identity, signUp: bool)

  const BUILTIN := "default"

  /** The users table and its unique index over identities; a row without one is unclaimed. */
  datatype Table = Table(rows: map<string, Option<Identity>>, index: map<Identity, string>) {

    ghost predicate Valid() {
      && (forall id :: id in index ==> index[id] in rows && rows[index[id]] == Some(id))
      && (forall u :: u in rows && rows[u].Some? ==> rows[u].value in index && index[rows[u].value] == u)
      && (forall u :: u in rows && rows[u].None? ==> u == BUILTIN)
    }

    predicate Unclaimed() {
      BUILTIN in rows && rows[BUILTIN].None?
    }

    function With(user: string, id: Identity): Table {
      Table(rows[user := Some(id)], index[id := user])
    }
  }

  /** What a store operation reports: the truth, or a failure before or after it took effect. */
  datatype Fault = Fine | Before | After

  datatype CreateError = Reported | UserTaken | IdentityTaken

  datatype Outcome =
    | Acts(user: string)
    | StoreFailed
    | NoAccount
    | ClaimRefused
    | NotCreated(why: CreateError)

  /** Where a call is: about to make its next store operation, or done. */
  datatype Phase = Finding | Claiming | Creating | Refinding(why: CreateError) | Done(outcome: Outcome)

  datatype Call = Call(id: Identity, phase: Phase)

  // ------------------------------------------------------------------- store operations

  /** Creates an account unless the user or the identity is taken. */
  function Create(t: Table, user: string, id: Identity, fault: Fault): (Table, Option<CreateError>) {
    if fault.Before? then (t, Some(Reported))
    else if user in t.rows then (t, Some(UserTaken))
    else if id in t.index then (t, Some(IdentityTaken))
    else (t.With(user, id), if fault.After? then Some(Reported) else None)
  }

  /** The unclaimed row takes the identity, unless the index already has it; a claimed row is left as it is. */
  function ClaimBuiltin(t: Table, id: Identity, fault: Fault): (Table, Option<Outcome>) {
    if fault.Before? then (t, Some(StoreFailed))
    else if t.Unclaimed() && id in t.index then (t, Some(ClaimRefused))
    else if t.Unclaimed() then (t.With(BUILTIN, id), Some(if fault.After? then StoreFailed else Acts(BUILTIN)))
    else (t, if fault.After? then Some(StoreFailed) else None)
  }

  // --------------------------------------------------------------------- one call's step

  function SigningUp(p: Policy): Phase {
    if p.signUp then Creating else Done(NoAccount)
  }

  function FindStep(t: Table, p: Policy, id: Identity, fault: Fault): Phase {
    if !fault.Fine? then Done(StoreFailed)
    else if id in t.index then Done(Acts(t.index[id]))
    else if p.owner.subject != "" && id == p.owner then Claiming
    else SigningUp(p)
  }

  function RefindStep(t: Table, id: Identity, why: CreateError, fault: Fault): Phase {
    if !fault.Fine? then Done(StoreFailed)
    else if id in t.index then Done(Acts(t.index[id]))
    else Done(NotCreated(why))
  }

  /** The next store operation of a call; user is the id drawn should it be a create. */
  function CallStep(t: Table, p: Policy, c: Call, fault: Fault, user: string): (Table, Call) {
    match c.phase
    case Finding => (t, c.(phase := FindStep(t, p, c.id, fault)))
    case Claiming =>
      var (u, outcome) := ClaimBuiltin(t, c.id, fault);
      (u, c.(phase := if outcome.Some? then Done(outcome.value) else SigningUp(p)))
    case Creating =>
      var (u, err) := Create(t, user, c.id, fault);
      (u, c.(phase := if err.None? then Done(Acts(user)) else Refinding(err.value)))
    case Refinding(why) => (t, c.(phase := RefindStep(t, c.id, why, fault)))
    case Done(_) => (t, c)
  }

  // -------------------------------------------------------------------------- whole runs

  datatype System = System(table: Table, calls: seq<Call>)

  /** A call begins, or the i-th call makes its next operation. */
  datatype Event = Begin(id: Identity) | Advance(i: nat, fault: Fault, user: string)

  function Apply(p: Policy, s: System, e: Event): System {
    match e
    case Begin(id) => s.(calls := s.calls + [Call(id, Finding)])
    case Advance(i, fault, user) =>
      if i >= |s.calls| then s
      else var (t, c) := CallStep(s.table, p, s.calls[i], fault, user);
           System(t, s.calls[i := c])
  }

  /** Any interleaving of any number of calls. */
  function Run(p: Policy, s: System, events: seq<Event>): System {
    if events == [] then s else Apply(p, Run(p, s, events[..|events| - 1]), events[|events| - 1])
  }

  // ----------------------------------------------------------------- what every step keeps

  predicate OwnerNamed(p: Policy, id: Identity) {
    p.owner.subject != "" && id == p.owner
  }

  /**
   What is known of a call: one that acts for a user is the user's own identity; one
   that lost a create to its twin can find the twin's account; the owner claims only
   while it has no account, and signs up only once the library is claimed.
   */
  ghost predicate CallValid(t: Table, p: Policy, c: Call) {
    && (c.phase.Done? && c.phase.outcome.Acts? ==> c.id in t.index && t.index[c.id] == c.phase.outcome.user)
    && (c.phase.Refinding? && c.phase.why.IdentityTaken? ==> c.id in t.index)
    && (c.phase.Done? && c.phase.outcome.NotCreated? ==> !c.phase.outcome.why.IdentityTaken?)
    && (c.phase.Done? ==> !c.phase.outcome.ClaimRefused?)
    && (c.phase.Claiming? ==> OwnerNamed(p, c.id) && (t.Unclaimed() ==> c.id !in t.index))
    && ((c.phase.Creating? || c.phase.Refinding?) && OwnerNamed(p, c.id) ==> !t.Unclaimed())
    && (c.phase.Creating? ==> p.signUp)
  }

  ghost predicate SystemValid(p: Policy, s: System) {
    s.table.Valid() && forall i :: 0 <= i < |s.calls| ==> CallValid(s.table, p, s.calls[i])
  }

  /** Nothing the table holds of an identity changes, and only the built-in row can gain one. */
  ghost predicate Grows(t: Table, u: Table) {
    && (forall id :: id in t.index ==> id in u.index && u.index[id] == t.index[id])
    && (forall user :: user in t.rows ==> user in u.rows)
    && (u.Unclaimed() ==> t.Unclaimed())
  }

  /** How a step changes the table, if it does: it adds one account the identity did not have. */
  ghost predicate Adds(t: Table, u: Table, p: Policy, id: Identity, user: string) {
    && id !in t.index && u == t.With(user, id)
    && (user == BUILTIN && user in t.rows ==> t.Unclaimed() && OwnerNamed(p, id))
    && (user !in t.rows || (user == BUILTIN && t.Unclaimed()))
    && (t.Unclaimed() && OwnerNamed(p, id) ==> user == BUILTIN)
    && (user !in t.rows ==> p.signUp)
  }

  lemma StepAdds(t: Table, p: Policy, c: Call, fault: Fault, user: string)
    requires t.Valid() && CallValid(t, p, c)
    ensures var (u, d) := CallStep(t, p, c, fault, user);
            u == t || (exists added :: Adds(t, u, p, c.id, added))
  {
    var (u, d) := CallStep(t, p, c, fault, user);
    if u != t {
      assert Adds(t, u, p, c.id, if c.phase.Claiming? then BUILTIN else user);
    }
  }

  lemma AddsKeepsTable(t: Table, u: Table, p: Policy, id: Identity, user: string)
    requires t.Valid() && Adds(t, u, p, id, user)
    ensures u.Valid() && Grows(t, u)
  {
  }

  lemma AddsKeepsCall(t: Table, u: Table, p: Policy, id: Identity, user: string, c: Call)
    requires t.Valid() && Adds(t, u, p, id, user) && CallValid(t, p, c)
    ensures CallValid(u, p, c)
  {
    AddsKeepsTable(t, u, p, id, user);
  }

  /** A call's own step leaves it valid. */
  lemma StepKeepsCall(t: Table, p: Policy, c: Call, fault: Fault, user: string)
    requires t.Valid() && CallValid(t, p, c)
    ensures var (u, d) := CallStep(t, p, c, fault, user); d.id == c.id && CallValid(u, p, d)
  {
    var (u, d) := CallStep(t, p, c, fault, user);
    match c.phase {
      case Finding =>
      case Claiming =>
      case Creating =>
      case Refinding(why) =>
      case Done(_) =>
    }
  }

  lemma ApplyKeeps(p: Policy, s: System, e: Event)
    requires SystemValid(p, s)
    ensures SystemValid(p, Apply(p, s, e)) && Grows(s.table, Apply(p, s, e).table)
  {
    if e.Advance? && e.i < |s.calls| {
      var c := s.calls[e.i];
      var (u, d) := CallStep(s.table, p, c, e.fault, e.user);
      StepKeepsCall(s.table, p, c, e.fault, e.user);
      StepAdds(s.table, p, c, e.fault, e.user);
      if u != s.table {
        var added :| Adds(s.table, u, p, c.id, added);
        AddsKeepsTable(s.table, u, p, c.id, added);
        forall i | 0 <= i < |s.calls|
          ensures CallValid(u, p, s.calls[i])
        {
          AddsKeepsCall(s.table, u, p, c.id, added, s.calls[i]);
        }
      }
    }
  }

  lemma {:induction false} RunKeeps(p: Policy, s: System, events: seq<Event>)
    requires SystemValid(p, s)
    ensures SystemValid(p, Run(p, s, events)) && Grows(s.table, Run(p, s, events).table)
  {
    if events != [] {
      RunKeeps(p, s, events[..|events| - 1]);
      ApplyKeeps(p, Run(p, s, events[..|events| - 1]), events[|events| - 1]);
    }
  }

  // -------------------------------------------------------------------- the main results

  predicate ActsAs(c: Call, user: string) {
    c.phase == Done(Acts(user))
  }

  /** A table to start from, and no calls under way. */
  function Start(t: Table): System {
    System(t, [])
  }

  /** Calls that succeed act for the same user exactly when they are of the same identity. */
  lemma OneUserPerIdentity(p: Policy, t: Table, events: seq<Event>, i: nat, j: nat, a: string, b: string)
    requires t.Valid()
    requires var calls := Run(p, Start(t), events).calls; i < |calls| && j < |calls| && ActsAs(calls[i], a) && ActsAs(calls[j], b)
    ensures var calls := Run(p, Start(t), events).calls; a == b <==> calls[i].id == calls[j].id
  {
    RunKeeps(p, Start(t), events);
    var s := Run(p, Start(t), events);
    assert CallValid(s.table, p, s.calls[i]) && CallValid(s.table, p, s.calls[j]);
  }

  /** An identity that had an account keeps it through every run: whoever succeeds for it acts for that user. */
  lemma AccountsLast(p: Policy, t: Table, events: seq<Event>, i: nat, user: string)
    requires t.Valid() && var calls := Run(p, Start(t), events).calls; i < |calls| && ActsAs(calls[i], user) && calls[i].id in t.index
    ensures user == t.index[Run(p, Start(t), events).calls[i].id]
  {
    RunKeeps(p, Start(t), events);
    assert CallValid(Run(p, Start(t), events).table, p, Run(p, Start(t), events).calls[i]);
  }

  /** Who holds the built-in library, if anyone does. */
  function BuiltinHolder(t: Table): Option<Identity> {
    if BUILTIN in t.rows then t.rows[BUILTIN] else None
  }

  lemma ApplyKeepsBuiltin(p: Policy, s: System, e: Event)
    requires SystemValid(p, s) && BUILTIN in s.table.rows
    ensures var h, k := BuiltinHolder(s.table), BuiltinHolder(Apply(p, s, e).table);
            BUILTIN in Apply(p, s, e).table.rows && (k == h || (h == None && OwnerNamed(p, p.owner) && k == Some(p.owner)))
  {
    if e.Advance? && e.i < |s.calls| {
      StepAdds(s.table, p, s.calls[e.i], e.fault, e.user);
    }
  }

  /** The built-in library is claimed at most once, and by the default owner. */
  lemma {:induction false} BuiltinClaimedOnce(p: Policy, s: System, events: seq<Event>)
    requires SystemValid(p, s) && BUILTIN in s.table.rows
    ensures var h, k := BuiltinHolder(s.table), BuiltinHolder(Run(p, s, events).table);
            BUILTIN in Run(p, s, events).table.rows && (k == h || (h == None && OwnerNamed(p, p.owner) && k == Some(p.owner)))
  {
    if events != [] {
      var before := events[..|events| - 1];
      BuiltinClaimedOnce(p, s, before);
      RunKeeps(p, s, before);
      ApplyKeepsBuiltin(p, Run(p, s, before), events[|events| - 1]);
    }
  }

  /** A call acts for the built-in library only as its holder, the default owner if it was unclaimed. */
  lemma BuiltinActsForHolder(p: Policy, t: Table, events: seq<Event>, i: nat)
    requires t.Valid()
    requires i < |Run(p, Start(t), events).calls| && ActsAs(Run(p, Start(t), events).calls[i], BUILTIN)
    ensures var s := Run(p, Start(t), events);
            && BuiltinHolder(s.table) == Some(s.calls[i].id)
            && (t.Unclaimed() ==> OwnerNamed(p, s.calls[i].id))
  {
    RunKeeps(p, Start(t), events);
    var s := Run(p, Start(t), events);
    assert CallValid(s.table, p, s.calls[i]);
    if t.Unclaimed() {
      BuiltinClaimedOnce(p, Start(t), events);
    }
  }

  /** With sign-up closed no run adds a user. */
  lemma {:induction false} ClosedAddsNobody(p: Policy, s: System, events: seq<Event>)
    requires SystemValid(p, s) && !p.signUp
    ensures Run(p, s, events).table.rows.Keys == s.table.rows.Keys
  {
    if events != [] {
      var before, e := events[..|events| - 1], events[|events| - 1];
      ClosedAddsNobody(p, s, before);
      RunKeeps(p, s, before);
      var r := Run(p, s, before);
      if e.Advance? && e.i < |r.calls| {
        StepAdds(r.table, p, r.calls[e.i], e.fault, e.user);
      }
    }
  }

  // ----------------------------------------------------------------------- lost races

  /** No claim is refused, and no call ends in the error of a create that the index turned down. */
  lemma LosersFindTheirTwin(p: Policy, t: Table, events: seq<Event>, i: nat)
    requires t.Valid() && i < |Run(p, Start(t), events).calls|
    ensures var phase := Run(p, Start(t), events).calls[i].phase; phase != Done(ClaimRefused) && phase != Done(NotCreated(IdentityTaken))
  {
    RunKeeps(p, Start(t), events);
    assert CallValid(Run(p, Start(t), events).table, p, Run(p, Start(t), events).calls[i]);
  }

  /** After such a create the next find, unless it reports a fault, gives the twin's account. */
  lemma TwinIsFound(p: Policy, t: Table, events: seq<Event>, i: nat, fault: Fault, user: string)
    requires t.Valid() && i < |Run(p, Start(t), events).calls|
    requires Run(p, Start(t), events).calls[i].phase == Refinding(IdentityTaken)
    ensures var s := Run(p, Start(t), events);
            && s.calls[i].id in s.table.index
            && Apply(p, s, Advance(i, fault, user)).calls[i].phase ==
               Done(if fault.Fine? then Acts(s.table.index[s.calls[i].id]) else StoreFailed)
  {
    RunKeeps(p, Start(t), events);
    assert CallValid(Run(p, Start(t), events).table, p, Run(p, Start(t), events).calls[i]);
  }

  /** A call was turned away, and its identity has an account. */
  ghost predicate TurnedAway(p: Policy, t: Table, events: seq<Event>, i: nat, id: Identity) {
    var s := Run(p, Start(t), events);
    i < |s.calls| && s.calls[i] == Call(id, Done(NoAccount)) && id in s.table.index
  }

  /** When a call of an identity can be turned away although the identity gets an account. */
  predicate CanLoseClaim(p: Policy, t: Table, id: Identity) {
    !p.signUp && OwnerNamed(p, id) && t.Unclaimed() && id !in t.index
  }

  /** What is known of calls since the table was t: who is turned away or claims had no account then. */
  ghost predicate CallSince(t: Table, p: Policy, c: Call) {
    && (c.phase.Claiming? ==> c.id !in t.index)
    && (c.phase == Done(NoAccount) ==> !p.signUp && c.id !in t.index)
  }

  /** With sign-up closed, only the owner has joined the index, and only if the library was unclaimed. */
  ghost predicate JoinedSince(t: Table, p: Policy, u: Table) {
    !p.signUp ==> forall id :: id in u.index && id !in t.index ==> OwnerNamed(p, id) && t.Unclaimed()
  }

  ghost predicate Since(t: Table, p: Policy, s: System) {
    JoinedSince(t, p, s.table) && forall i :: 0 <= i < |s.calls| ==> CallSince(t, p, s.calls[i])
  }

  lemma StepSince(t: Table, p: Policy, u: Table, c: Call, fault: Fault, user: string)
    requires u.Valid() && CallValid(u, p, c) && Grows(t, u) && CallSince(t, p, c) && JoinedSince(t, p, u)
    ensures var (v, d) := CallStep(u, p, c, fault, user); CallSince(t, p, d) && JoinedSince(t, p, v)
  {
    StepAdds(u, p, c, fault, user);
  }

  lemma {:induction false} RunSince(p: Policy, t: Table, events: seq<Event>)
    requires t.Valid()
    ensures Since(t, p, Run(p, Start(t), events))
  {
    if events != [] {
      var before, e := events[..|events| - 1], events[|events| - 1];
      RunSince(p, t, before);
      RunKeeps(p, Start(t), before);
      var s := Run(p, Start(t), before);
      if e.Advance? && e.i < |s.calls| {
        assert CallSince(t, p, s.calls[e.i]) && CallValid(s.table, p, s.calls[e.i]);
        StepSince(t, p, s.table, s.calls[e.i], e.fault, e.user);
      }
    }
  }

  /** Two first requests of an identity, each finding nothing before either claims. */
  function TwoClaims(id: Identity): seq<Event> {
    [Begin(id), Begin(id), Advance(0, Fine, ""), Advance(1, Fine, ""), Advance(0, Fine, ""), Advance(1, Fine, "")]
  }

  /** A run's last two events, one after the other. */
  lemma RunTwoMore(p: Policy, s: System, events: seq<Event>, e: Event, f: Event)
    ensures Run(p, s, events + [e, f]) == Apply(p, Apply(p, Run(p, s, events), e), f)
  {
    var all := events + [e, f];
    assert all[..|all| - 1] == events + [e] && (events + [e])[..|events|] == events;
  }

  lemma BothBegin(p: Policy, t: Table, id: Identity)
    ensures Run(p, Start(t), [Begin(id), Begin(id)]) == System(t, [Call(id, Finding), Call(id, Finding)])
  {
    RunTwoMore(p, Start(t), [], Begin(id), Begin(id));
    assert [] + [Begin(id), Begin(id)] == [Begin(id), Begin(id)];
  }

  lemma BothFind(p: Policy, t: Table, id: Identity)
    requires CanLoseClaim(p, t, id)
    ensures Apply(p, Apply(p, System(t, [Call(id, Finding), Call(id, Finding)]), Advance(0, Fine, "")), Advance(1, Fine, "")) ==
            System(t, [Call(id, Claiming), Call(id, Claiming)])
  {
    assert FindStep(t, p, id, Fine) == Claiming;
  }

  lemma BothClaim(p: Policy, t: Table, id: Identity)
    requires CanLoseClaim(p, t, id)
    ensures Apply(p, Apply(p, System(t, [Call(id, Claiming), Call(id, Claiming)]), Advance(0, Fine, "")), Advance(1, Fine, "")) ==
            System(t.With(BUILTIN, id), [Call(id, Done(Acts(BUILTIN))), Call(id, Done(NoAccount))])
  {
    assert ClaimBuiltin(t, id, Fine) == (t.With(BUILTIN, id), Some(Acts(BUILTIN)));
    assert ClaimBuiltin(t.With(BUILTIN, id), id, Fine) == (t.With(BUILTIN, id), None);
  }

  /** The second claim loses, and its call is turned away although the first now acts for the library. */
  lemma SecondClaimLoses(p: Policy, t: Table, id: Identity)
    requires CanLoseClaim(p, t, id)
    ensures Run(p, Start(t), TwoClaims(id)) ==
            System(t.With(BUILTIN, id), [Call(id, Done(Acts(BUILTIN))), Call(id, Done(NoAccount))])
    ensures TurnedAway(p, t, TwoClaims(id), 1, id)
  {
    var first, second := Advance(0, Fine, ""), Advance(1, Fine, "");
    var begun := [Begin(id), Begin(id)];
    BothBegin(p, t, id);
    RunTwoMore(p, Start(t), begun, first, second);
    BothFind(p, t, id);
    RunTwoMore(p, Start(t), begun + [first, second], first, second);
    BothClaim(p, t, id);
    assert begun + [first, second] + [first, second] == TwoClaims(id);
  }

  /**
   A call can be turned away although its identity gets an account exactly when sign-up
   is closed, the identity is the default owner without one, and the library unclaimed.
   */
  lemma LostClaimTurnsAway(p: Policy, t: Table, id: Identity)
    requires t.Valid()
    ensures (exists events: seq<Event>, i: nat :: TurnedAway(p, t, events, i, id)) <==> CanLoseClaim(p, t, id)
  {
    if CanLoseClaim(p, t, id) {
      SecondClaimLoses(p, t, id);
    }
    if events: seq<Event>, i: nat :| TurnedAway(p, t, events, i, id) {
      RunSince(p, t, events);
      assert CallSince(t, p, Run(p, Start(t), events).calls[i]);
    }
  }

  // ----------------------------------------------------------------- one call on its own

  /** The accounts store, as one request uses it. */
  class Store {
    var table: Table

    constructor (t: Table)
      ensures table == t
    {
      table := t;
    }

    method Find(id: Identity, fault: Fault) returns (user: Option<string>, failed: bool)
      ensures failed == !fault.Fine? && user == if fault.Fine? && id in table.index then Some(table.index[id]) else None
    {
      failed := !fault.Fine?;
      user := if !failed && id in table.index then Some(table.index[id]) else None;
    }

    method Claim(id: Identity, fault: Fault) returns (outcome: Option<Outcome>)
      modifies this
      ensures (table, outcome) == ClaimBuiltin(old(table), id, fault)
    {
      var (t, answer) := ClaimBuiltin(table, id, fault);
      table, outcome := t, answer;
    }

    method Insert(user: string, id: Identity, fault: Fault) returns (err: Option<CreateError>)
      modifies this
      ensures (table, err) == Create(old(table), user, id, fault)
    {
      var (t, answer) := Create(table, user, id, fault);
      table, err := t, answer;
    }
  }

  /** A call from its create on, nothing coming between its steps. */
  function CreateRun(t: Table, p: Policy, id: Identity, create: Fault, refind: Fault, user: string): (Table, Call) {
    var (u, c) := CallStep(t, p, Call(id, Creating), create, user);
    if c.phase.Refinding? then CallStep(u, p, c, refind, user) else (u, c)
  }

  /** A call from beginning to end, nothing coming between its steps. */
  function ResolveRun(t: Table, p: Policy, id: Identity, find: Fault, claim: Fault, create: Fault, refind: Fault, user: string): (Table, Call) {
    var (t1, c1) := CallStep(t, p, Call(id, Finding), find, user);
    var (t2, c2) := if c1.phase.Claiming? then CallStep(t1, p, c1, claim, user) else (t1, c1);
    if c2.phase.Creating? then CreateRun(t2, p, id, create, refind, user) else (t2, c2)
  }

  /** Makes a new account, or finds the one a twin made first. */
  method MakeAccount(store: Store, ghost p: Policy, id: Identity, create: Fault, refind: Fault, user: string) returns (outcome: Outcome)
    modifies store
    ensures (store.table, Call(id, Done(outcome))) == CreateRun(old(store.table), p, id, create, refind, user)
  {
    var err := store.Insert(user, id, create);
    if err.None? {
      return Acts(user);
    }
    var found, failed := store.Find(id, refind);
    outcome := if failed then StoreFailed else if found.Some? then Acts(found.value) else NotCreated(err.value);
  }

  /** The rows and the index gain one account, of the identity, and are otherwise as they were. */
  ghost predicate Gained(t: Table, u: Table, user: string, id: Identity) {
    u.rows == t.rows[user := Some(id)] && u.index == t.index[id := user]
  }

  /** One call's operations in order, the store changing only as ResolveRun says. */
  method Resolve(store: Store, p: Policy, id: Identity, find: Fault, claim: Fault, create: Fault, refind: Fault, user: string)
    returns (outcome: Outcome)
    modifies store
    ensures (store.table, Call(id, Done(outcome))) == ResolveRun(old(store.table), p, id, find, claim, create, refind, user)
    // it ends in a failure of the store only if one of its operations reported one
    ensures outcome == StoreFailed ==> !find.Fine? || !claim.Fine? || !refind.Fine?
    // an identity with an account acts for it
    ensures find.Fine? && id in old(store.table.index) ==>
              outcome == Acts(old(store.table.index)[id]) && store.table == old(store.table)
    // the default owner without one acts for the built-in row, if nobody has claimed it
    ensures find.Fine? && claim.Fine? && id !in old(store.table.index) && OwnerNamed(p, id) && old(store.table).Unclaimed() ==>
              outcome == Acts(BUILTIN) && Gained(old(store.table), store.table, BUILTIN, id)
    // anyone else without one gets the user drawn, if sign-up is open, even where creating reports a failure late
    ensures find.Fine? && id !in old(store.table.index) && !(OwnerNamed(p, id) && old(store.table).Unclaimed())
            && (OwnerNamed(p, id) ==> claim.Fine?)
            && p.signUp && user !in old(store.table.rows) && !create.Before? && refind.Fine? ==>
              outcome == Acts(user) && Gained(old(store.table), store.table, user, id)
    // and is turned away if it is not
    ensures find.Fine? && id !in old(store.table.index) && !(OwnerNamed(p, id) && old(store.table).Unclaimed())
            && (OwnerNamed(p, id) ==> claim.Fine?) && !p.signUp ==>
              outcome == NoAccount && store.table == old(store.table)
  {
    var found, failed := store.Find(id, find);
    if failed {
      return StoreFailed;
    }
    if found.Some? {
      return Acts(found.value);
    }
    if p.owner.subject != "" && id == p.owner {
      var answer := store.Claim(id, claim);
      if answer.Some? {
        return answer.value;
      }
    }
    if !p.signUp {
      return NoAccount;
    }
    outcome := MakeAccount(store, p, id, create, refind, user);
  }
}
