/**
 What the calls on companies, members and deletion requests permit and refuse, and what they change.
 */
module OwnershipRules {
  import opened Prelude
  import opened Ownership
  import opened DeletionWorker

  // ------------------------------------------------------------------
  // Companies
  // ------------------------------------------------------------------

  /** No two companies have the same GSTIN. */
  ghost predicate GstinsUnique(w: World) {
    forall i, j | 0 <= i < j < |w.companies| && w.companies[i].Some? :: w.companies[i] != w.companies[j]
  }

  /** A company is refused exactly for a GSTIN that is taken; a new one has its maker as its only member, an owner. */
  lemma {:induction false} CreateIs(w: World, gstin: Option<string>, actor: nat)
    requires SeatsExist(w)
    ensures
      var after, taken := Step(w, Create(gstin, actor)), gstin.Some? && gstin in w.companies;
      && (CreateRefusal(w, gstin) == if taken then Some(GstinAlreadyRegistered) else None)
      && (taken ==> after == w)
      && (!taken ==>
            && after.companies == w.companies + [gstin]
            && after.members == w.members[Seat(|w.companies|, actor) := Owner]
            && Owners(after.members, |w.companies|) == {actor}
            && after.users == w.users && after.requests == w.requests)
  {
    var after := Step(w, Create(gstin, actor));
    if CreateRefusal(w, gstin).None? {
      assert Seat(|w.companies|, actor) in after.members;
    }
  }

  lemma {:induction false} StepKeepsGstins(w: World, e: Event)
    requires GstinsUnique(w)
    ensures GstinsUnique(Step(w, e))
  {
  }

  /** In every run no two companies are created with the same GSTIN. */
  lemma {:induction false} GstinsStayUnique(w: World, events: seq<Event>)
    requires GstinsUnique(w)
    ensures GstinsUnique(Run(w, events))
    decreases |events|
  {
    if events != [] {
      StepKeepsGstins(w, events[0]);
      GstinsStayUnique(Step(w, events[0]), events[1..]);
    }
  }

  // ------------------------------------------------------------------
  // Members
  // ------------------------------------------------------------------

  /** The role of a user in a company, if any. */
  function RoleOf(w: World, company: nat, user: nat): Option<Role> {
    if Seat(company, user) in w.members then Some(w.members[Seat(company, user)]) else None
  }

  /** To those who are not members the company does not exist; members who are not owners may not. */
  lemma {:induction false} OnlyOwnersManage(
      w: World, company: nat, actor: nat, seat: Seat, target: Option<nat>, role: Role)
    requires seat.company == company && RoleOf(w, company, actor) != Some(Owner)
    ensures
      var reason := if RoleOf(w, company, actor) == None then CompanyNotFound else InsufficientRole;
      && AddRefusal(w, company, target, actor) == Some(reason)
      && RoleRefusal(w, seat, role, actor) == Some(reason)
      && RemoveRefusal(w, seat, actor) == Some(reason)
    ensures Step(w, Add(company, target, role, actor)) == w
    ensures Step(w, SetRole(seat, role, actor)) == w && Step(w, Remove(seat, actor)) == w
  {
  }

  /** An owner adds whoever is registered and not yet a member, with the role that was asked for. */
  lemma {:induction false} OwnersAdd(w: World, company: nat, target: Option<nat>, role: Role, actor: nat)
    requires RoleOf(w, company, actor) == Some(Owner)
    ensures
      var after := Step(w, Add(company, target, role, actor));
      if target == None then AddRefusal(w, company, target, actor) == Some(UserNotFound) && after == w
      else if RoleOf(w, company, target.value) != None then
        AddRefusal(w, company, target, actor) == Some(AlreadyMember) && after == w
      else
        && AddRefusal(w, company, target, actor) == None
        && after == w.(members := w.members[Seat(company, target.value) := role])
  {
  }

  /** An owner changes any role of a member, unless the company would be left without an owner. */
  lemma {:induction false} OwnersChange(w: World, seat: Seat, role: Role, actor: nat)
    requires RoleOf(w, seat.company, actor) == Some(Owner)
    ensures
      var changed := w.(members := w.members[seat := role]);
      var refusal, after := RoleRefusal(w, seat, role, actor), Step(w, SetRole(seat, role, actor));
      if seat !in w.members then refusal == Some(UserNotFound) && after == w
      else if HasOwner(changed, seat.company) then refusal == None && after == changed
      else refusal == Some(OwnershipTransferRequired) && after == w
  {
    if seat in w.members {
      var changed := w.(members := w.members[seat := role]);
      Orphaned(w, seat, actor, changed);
      assert changed.members[seat] == role;
    }
  }

  /** An owner removes any member, unless the company would be left without an owner. */
  lemma {:induction false} OwnersRemove(w: World, seat: Seat, actor: nat)
    requires RoleOf(w, seat.company, actor) == Some(Owner)
    ensures
      var changed := w.(members := w.members - {seat});
      var refusal, after := RemoveRefusal(w, seat, actor), Step(w, Remove(seat, actor));
      if seat !in w.members then refusal == Some(UserNotFound) && after == w
      else if HasOwner(changed, seat.company) then refusal == None && after == changed
      else refusal == Some(OwnershipTransferRequired) && after == w
  {
    if seat in w.members {
      Orphaned(w, seat, actor, w.(members := w.members - {seat}));
    }
  }

  /** A seat that is an owner's no more leaves the company without an owner exactly if it was the last one. */
  lemma {:induction false} Orphaned(w: World, seat: Seat, actor: nat, changed: World)
    requires seat in w.members && RoleOf(w, seat.company, actor) == Some(Owner)
    requires forall s | s in w.members && s != seat :: s in changed.members && changed.members[s] == w.members[s]
    requires forall s | s in changed.members && s != seat :: s in w.members
    ensures seat !in changed.members || changed.members[seat] != Owner ==>
              (HasOwner(changed, seat.company) <==> !LastOwner(w, seat))
  {
    var boss := Seat(seat.company, actor);
    if seat == boss {
      LastOwnerIff(w, seat);
    } else {
      assert boss in changed.members && changed.members[boss] == Owner;
      if w.members[seat] == Owner {
        LastOwnerIff(w, seat);
      }
    }
  }

  // ------------------------------------------------------------------
  // Deletion requests
  // ------------------------------------------------------------------

  /** A user is refused exactly if nothing is pending and some company with an owner would lose its last one. */
  lemma {:induction false} RequestRefusedIff(w: World, user: nat)
    requires AllOwned(w) && SeatsExist(w) && !Pending(w, user)
    ensures RequestRefusal(w, user) == Some(OwnershipTransferRequired) <==>
            exists c | 0 <= c < |w.companies| :: !HasOwner(w.(members := Without(w.members, user)), c)
    ensures RequestRefusal(w, user) == None <==>
            forall c | 0 <= c < |w.companies| :: HasOwner(w.(members := Without(w.members, user)), c)
  {
    var after := w.(members := Without(w.members, user));
    forall c | 0 <= c < |w.companies| ensures HasOwner(after, c) <==> c !in SolelyOwned(w.members, user) {
      assert HasOwner(w, c);
      SoleOwnerIff(w, user, c);
    }
    if SolelyOwned(w.members, user) != {} {
      var c :| c in SolelyOwned(w.members, user);
      assert Seat(c, user) in w.members;
      assert !HasOwner(after, c);
    }
  }

  /** A request that is let through is pending, and the worker takes it up thirty days later and not before. */
  lemma {:induction false} ThirtyDays(w: World, user: nat, at: int, now: int)
    requires !Pending(w, user) && RequestRefusal(w, user) == None
    ensures
      var after, id := Step(w, RequestDeletion(user, at)), |w.requests|;
      && |after.requests| == id + 1 && after.requests[..id] == w.requests && after.requests[id].user == user
      && Pending(after, user) && after.members == w.members
      && (IsDue(after, id, now) <==> now >= at + 30 * 24 * 3600)
  {
    var after, id := Step(w, RequestDeletion(user, at)), |w.requests|;
    assert after.requests[id].user == user && after.requests[id].status == GracePeriod;
  }

  /** No user has two pending requests. */
  ghost predicate OnePending(w: World) {
    forall i, j | 0 <= i < j < |w.requests|
                  && w.requests[i].status == GracePeriod && w.requests[j].status == GracePeriod ::
      w.requests[i].user != w.requests[j].user
  }

  lemma {:induction false} StepKeepsOnePending(w: World, e: Event)
    requires OnePending(w)
    ensures OnePending(Step(w, e))
  {
  }

  /** In every run no user has two pending requests. */
  lemma {:induction false} RunsKeepOnePending(w: World, events: seq<Event>)
    requires OnePending(w)
    ensures OnePending(Run(w, events))
    decreases |events|
  {
    if events != [] {
      StepKeepsOnePending(w, events[0]);
      RunsKeepOnePending(Step(w, events[0]), events[1..]);
    }
  }

  /** A withdrawn request is not pending any more and never due; no other request changes, and no member. */
  lemma {:induction false} WithdrawnIsGone(w: World, user: nat, id: nat, now: int)
    requires OnePending(w) && id < |w.requests|
    ensures
      var after := Step(w, CancelDeletion(user));
      && !Pending(after, user) && |after.requests| == |w.requests| && after.members == w.members
      && after.requests[id] ==
         (if w.requests[id].user == user && w.requests[id].status == GracePeriod
          then w.requests[id].(status := Withdrawn) else w.requests[id])
      && (IsDue(after, id, now) <==> IsDue(w, id, now) && w.requests[id].user != user)
  {
  }

  /** A second request while one is pending changes nothing and is no error. */
  lemma {:induction false} SecondRequest(w: World, user: nat, at: int)
    requires Pending(w, user)
    ensures Step(w, RequestDeletion(user, at)) == w && RequestRefusal(w, user) == None
  {
  }

  /** An erased account: nobody can log in to it, and its row names nobody. */
  lemma {:induction false} ErasedAccount(w: World, id: nat)
    requires Effective(w, id)
    ensures
      var user, after := w.requests[id].user, Processed(w, id);
      && user in after.users && after.requests[id].status == Completed
      && !after.users[user].active && after.users[user].password == "" && after.users[user].lastLogin == None
      && after.users[user].email == Tombstone(user) && after.users[user].name == "Deleted user"
      && after.users[user].phone == None && after.users[user].firm == None && after.users[user].caNumber == None
      && !after.users[user].isCa
      && forall other | other in w.users && other != user ::
           other in after.users && after.users[other] == w.users[other]
    ensures
      var user, after := w.requests[id].user, Processed(w, id);
      forall s | s in w.members && s.user != user :: s in after.members && after.members[s] == w.members[s]
  {
  }
}
