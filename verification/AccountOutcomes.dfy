/**
 How calls end in any run, however they interleave: a call that gets no account has a
 cause, and without one every call soon acts for its identity's account, whose origin
 is known.
 */
module Outcomes {
  import opened Text
  import opened Accounts

  // ------------------------------------------------------------------ what a call met

  /** Of a run's events, the last one moves its i-th call. */
  ghost predicate MovesLast(p: Policy, t: Table, events: seq<Event>, i: nat) {
    && events != [] && events[|events| - 1].Advance? && events[|events| - 1].i == i
    && i < |Run(p, Start(t), events[..|events| - 1]).calls|
  }

  /** How many operations the i-th call has made. */
  ghost function Moves(p: Policy, t: Table, events: seq<Event>, i: nat): nat {
    if events == [] then 0
    else Moves(p, t, events[..|events| - 1], i) + if MovesLast(p, t, events, i) then 1 else 0
  }

  /** One of the i-th call's own operations reported a failure. */
  ghost predicate Faulted(p: Policy, t: Table, events: seq<Event>, i: nat) {
    events != [] && (Faulted(p, t, events[..|events| - 1], i)
                     || (MovesLast(p, t, events, i) && !events[|events| - 1].fault.Fine?))
  }

  /** The i-th call drew, for a create, a user that was in the table. */
  ghost predicate DrewTaken(p: Policy, t: Table, events: seq<Event>, i: nat) {
    events != [] && (DrewTaken(p, t, events[..|events| - 1], i)
                     || (MovesLast(p, t, events, i)
                         && Run(p, Start(t), events[..|events| - 1]).calls[i].phase.Creating?
                         && events[|events| - 1].user in Run(p, Start(t), events[..|events| - 1]).table.rows))
  }

  // --------------------------------------------------------------- failures have causes

  /** A call that was turned away, or is about to be, was so for one of these. */
  ghost predicate Explained(p: Policy, c: Call, faulted: bool, taken: bool) {
    && (c.phase == Done(StoreFailed) ==> faulted)
    && (c.phase == Done(NoAccount) ==> !p.signUp)
    && (c.phase == Done(NotCreated(Reported)) || c.phase == Refinding(Reported) ==> faulted)
    && (c.phase == Done(NotCreated(UserTaken)) || c.phase == Refinding(UserTaken) ==> taken)
  }

  lemma StepExplained(t: Table, p: Policy, c: Call, fault: Fault, user: string, faulted: bool, taken: bool)
    requires CallValid(t, p, c) && Explained(p, c, faulted, taken)
    ensures var (u, d) := CallStep(t, p, c, fault, user);
            Explained(p, d, faulted || !fault.Fine?, taken || (c.phase.Creating? && user in t.rows))
  {
    match c.phase {
      case Finding =>
      case Claiming =>
      case Creating =>
      case Refinding(why) =>
      case Done(_) =>
    }
  }

  lemma {:induction false} CallsExplained(p: Policy, t: Table, events: seq<Event>, i: nat)
    requires t.Valid() && i < |Run(p, Start(t), events).calls|
    ensures Explained(p, Run(p, Start(t), events).calls[i], Faulted(p, t, events, i), DrewTaken(p, t, events, i))
  {
    var before, e := events[..|events| - 1], events[|events| - 1];
    var s := Run(p, Start(t), before);
    if i < |s.calls| {
      CallsExplained(p, t, before, i);
      RunKeeps(p, Start(t), before);
      assert CallValid(s.table, p, s.calls[i]);
      if MovesLast(p, t, events, i) {
        StepExplained(s.table, p, s.calls[i], e.fault, e.user, Faulted(p, t, before, i), DrewTaken(p, t, before, i));
      }
    }
  }

  /**
   A call that is done acts for a user, or one of its own operations reported a failure, or
   it drew a user already taken, or sign-up is closed; and it ends in the store's failure
   only for the first of these causes.
   */
  lemma FailuresHaveCauses(p: Policy, t: Table, events: seq<Event>, i: nat)
    requires t.Valid() && i < |Run(p, Start(t), events).calls| && Run(p, Start(t), events).calls[i].phase.Done?
    ensures var outcome := Run(p, Start(t), events).calls[i].phase.outcome;
            && (outcome.Acts? || Faulted(p, t, events, i) || DrewTaken(p, t, events, i) || !p.signUp)
            && (outcome == StoreFailed ==> Faulted(p, t, events, i))
            && (outcome == NoAccount ==> !p.signUp)
  {
    CallsExplained(p, t, events, i);
    LosersFindTheirTwin(p, t, events, i);
    match Run(p, Start(t), events).calls[i].phase.outcome {
      case NotCreated(why) =>
        assert why == Reported || why == UserTaken || why == IdentityTaken;
      case _ =>
    }
  }

  // -------------------------------------------------------------------- calls soon end

  /** The most operations a call has still to make. */
  function Left(phase: Phase): nat {
    match phase
    case Finding => 4
    case Claiming => 3
    case Creating => 2
    case Refinding(_) => 1
    case Done(_) => 0
  }

  /** A call makes four operations at most. */
  lemma {:induction false} CallsEnd(p: Policy, t: Table, events: seq<Event>, i: nat)
    requires i < |Run(p, Start(t), events).calls|
    ensures Left(Run(p, Start(t), events).calls[i].phase) <= 4 - Moves(p, t, events, i)
         || Run(p, Start(t), events).calls[i].phase.Done?
  {
    var before, e := events[..|events| - 1], events[|events| - 1];
    var s := Run(p, Start(t), before);
    if i < |s.calls| {
      CallsEnd(p, t, before, i);
      if MovesLast(p, t, events, i) {
        assert Left(CallStep(s.table, p, s.calls[i], e.fault, e.user).1.phase) < Left(s.calls[i].phase) || s.calls[i].phase.Done?;
      }
    } else {
      NoMovesBefore(p, t, before, i);
    }
  }

  /** A call not begun has made none. */
  lemma {:induction false} NoMovesBefore(p: Policy, t: Table, events: seq<Event>, i: nat)
    requires i >= |Run(p, Start(t), events).calls|
    ensures Moves(p, t, events, i) == 0
  {
    if events != [] {
      NoMovesBefore(p, t, events[..|events| - 1], i);
    }
  }

  // ------------------------------------------------------------------ where users are from

  /** Some event of the run drew the user, for a call of the identity, when nobody was that user. */
  ghost predicate Drawn(p: Policy, t: Table, events: seq<Event>, id: Identity, user: string) {
    events != [] && (Drawn(p, t, events[..|events| - 1], id, user)
                     || (var s, e := Run(p, Start(t), events[..|events| - 1]), events[|events| - 1];
                         e.Advance? && e.i < |s.calls| && s.calls[e.i].id == id && e.user == user && user !in s.table.rows))
  }

  /**
   Whose account an identity's is: the one it had, or the built-in row if it is the default
   owner and nobody had claimed the row, or else a user drawn for it.
   */
  ghost predicate Origin(p: Policy, t: Table, events: seq<Event>, id: Identity, user: string) {
    if id in t.index then user == t.index[id]
    else if OwnerNamed(p, id) && t.Unclaimed() then user == BUILTIN
    else Drawn(p, t, events, id, user)
  }

  /** While the default owner has no account, the row it could claim stays unclaimed. */
  ghost predicate OwnerWaits(p: Policy, t: Table, u: Table) {
    t.Unclaimed() && OwnerNamed(p, p.owner) && p.owner !in u.index ==> u.Unclaimed()
  }

  lemma StepOrigin(p: Policy, t: Table, u: Table, c: Call, fault: Fault, user: string)
    requires u.Valid() && CallValid(u, p, c) && OwnerWaits(p, t, u) && Grows(t, u)
    ensures var (v, d) := CallStep(u, p, c, fault, user);
            && OwnerWaits(p, t, v)
            && (forall id :: id in v.index && id !in u.index ==>
                  && id == c.id && id !in t.index
                  && if OwnerNamed(p, id) && t.Unclaimed() then v.index[id] == BUILTIN
                     else v.index[id] == user && user !in u.rows)
            && (forall id :: id in u.index ==> id in v.index && v.index[id] == u.index[id])
  {
    StepAdds(u, p, c, fault, user);
  }

  lemma {:induction false} AccountsHaveOrigins(p: Policy, t: Table, events: seq<Event>)
    requires t.Valid()
    ensures OwnerWaits(p, t, Run(p, Start(t), events).table)
    ensures forall id :: id in Run(p, Start(t), events).table.index ==>
              Origin(p, t, events, id, Run(p, Start(t), events).table.index[id])
  {
    if events != [] {
      var before, e := events[..|events| - 1], events[|events| - 1];
      AccountsHaveOrigins(p, t, before);
      RunKeeps(p, Start(t), before);
      var s := Run(p, Start(t), before);
      if e.Advance? && e.i < |s.calls| {
        assert CallValid(s.table, p, s.calls[e.i]);
        StepOrigin(p, t, s.table, s.calls[e.i], e.fault, e.user);
      }
    }
  }

  // ------------------------------------------------------------------------ the main result

  /**
   With sign-up open, a call whose operations report no failure and that draws no user
   already taken acts, after at most four operations and however other calls come between
   them, for its identity's account, which is the one it had, or the built-in row if it is
   the default owner and nobody had claimed it, or a user newly drawn for it.
   */
  lemma EveryoneGetsAnAccount(p: Policy, t: Table, events: seq<Event>, i: nat)
    requires t.Valid() && p.signUp && Moves(p, t, events, i) >= 4
    requires !Faulted(p, t, events, i) && !DrewTaken(p, t, events, i)
    ensures var s := Run(p, Start(t), events);
            && i < |s.calls| && s.calls[i].id in s.table.index
            && ActsAs(s.calls[i], s.table.index[s.calls[i].id])
            && Origin(p, t, events, s.calls[i].id, s.table.index[s.calls[i].id])
  {
    var s := Run(p, Start(t), events);
    if i >= |s.calls| {
      NoMovesBefore(p, t, events, i);
    }
    CallsEnd(p, t, events, i);
    FailuresHaveCauses(p, t, events, i);
    RunKeeps(p, Start(t), events);
    assert CallValid(s.table, p, s.calls[i]);
    AccountsHaveOrigins(p, t, events);
  }
}
