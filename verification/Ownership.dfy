/**
 Who owns a company: creating companies, adding, changing and removing members, and the erasure of
 accounts. Companies and deletion requests are known by their place in their tables.
 */
module Ownership {
  import opened Prelude

  datatype Role = Owner | Admin | Accountant | Viewer

  /** One membership per company and user. */
  datatype Seat = Seat(company: nat, user: nat)

  type Members = map<Seat, Role>

  datatype Status = GracePeriod | Withdrawn | Completed | Failed

  datatype Request = Request(user: nat, graceEnds: int, status: Status)

  /** The address that replaces the one of an erased user is made of nothing but the user's id. */
  datatype Email = Address(text: string) | Tombstone(id: nat)

  datatype User = User(
    email: Email, name: string, phone: Option<string>, firm: Option<string>, caNumber: Option<string>, isCa: bool,
    password: string, active: bool, lastLogin: Option<int>)

  type Users = map<nat, User>

  /** `companies` holds the GSTIN of each company. */
  datatype World = World(companies: seq<Option<string>>, members: Members, users: Users, requests: seq<Request>)

  const GRACE_PERIOD := 30 * 24 * 60 * 60

  datatype Error =
    | GstinAlreadyRegistered | CompanyNotFound | InsufficientRole | UserNotFound | AlreadyMember
    | OwnershipTransferRequired | NoPendingRequest | RequestNotFound

  function Owners(members: Members, company: nat): set<nat> {
    set s | s in members && s.company == company && members[s] == Owner :: s.user
  }

  // ------------------------------------------------------------------
  // Companies and members
  // ------------------------------------------------------------------

  function CreateRefusal(w: World, gstin: Option<string>): Option<Error> {
    if gstin.Some? && exists c | 0 <= c < |w.companies| :: w.companies[c] == gstin then Some(GstinAlreadyRegistered)
    else None
  }

  /** Only an owner manages members; a company is hidden from those who are not members. */
  function ActorRefusal(w: World, company: nat, actor: nat): Option<Error> {
    if Seat(company, actor) !in w.members then Some(CompanyNotFound)
    else if w.members[Seat(company, actor)] != Owner then Some(InsufficientRole)
    else None
  }

  /** `target` is the user registered with the address, if there is one. */
  function AddRefusal(w: World, company: nat, target: Option<nat>, actor: nat): Option<Error> {
    if ActorRefusal(w, company, actor).Some? then ActorRefusal(w, company, actor)
    else if target.None? then Some(UserNotFound)
    else if Seat(company, target.value) in w.members then Some(AlreadyMember)
    else None
  }

  /** The seat is an owner's and there is no other owner. */
  predicate LastOwner(w: World, seat: Seat) {
    seat in w.members && w.members[seat] == Owner && |Owners(w.members, seat.company)| <= 1
  }

  function RoleRefusal(w: World, seat: Seat, role: Role, actor: nat): Option<Error> {
    if ActorRefusal(w, seat.company, actor).Some? then ActorRefusal(w, seat.company, actor)
    else if seat !in w.members then Some(UserNotFound)
    else if role != Owner && LastOwner(w, seat) then Some(OwnershipTransferRequired)
    else None
  }

  function RemoveRefusal(w: World, seat: Seat, actor: nat): Option<Error> {
    if ActorRefusal(w, seat.company, actor).Some? then ActorRefusal(w, seat.company, actor)
    else if seat !in w.members then Some(UserNotFound)
    else if LastOwner(w, seat) then Some(OwnershipTransferRequired)
    else None
  }

  // ------------------------------------------------------------------
  // Erasure of accounts
  // ------------------------------------------------------------------

  predicate Pending(w: World, user: nat) {
    exists i | 0 <= i < |w.requests| :: w.requests[i].user == user && w.requests[i].status == GracePeriod
  }

  function FirstPending(w: World, user: nat, i: nat): (k: nat)
    requires i <= |w.requests|
    ensures i <= k <= |w.requests|
    ensures k < |w.requests| ==> w.requests[k].user == user && w.requests[k].status == GracePeriod
    ensures forall j | i <= j < k :: !(w.requests[j].user == user && w.requests[j].status == GracePeriod)
    decreases |w.requests| - i
  {
    if i == |w.requests| || (w.requests[i].user == user && w.requests[i].status == GracePeriod) then i
    else FirstPending(w, user, i + 1)
  }

  /** The user is the only owner of this company. */
  predicate SoleOwner(members: Members, company: nat, user: nat) {
    && Seat(company, user) in members && members[Seat(company, user)] == Owner
    && forall s | s in members && s.company == company && members[s] == Owner :: s.user == user
  }

  function SolelyOwned(members: Members, user: nat): set<nat> {
    set s | s in members && s.user == user && SoleOwner(members, s.company, user) :: s.company
  }

  function RequestRefusal(w: World, user: nat): Option<Error> {
    if !Pending(w, user) && SolelyOwned(w.members, user) != {} then Some(OwnershipTransferRequired) else None
  }

  function Without(members: Members, user: nat): Members {
    map s | s in members && s.user != user :: members[s]
  }

  predicate Effective(w: World, id: nat) {
    id < |w.requests| && w.requests[id].status == GracePeriod && w.requests[id].user in w.users
  }

  /** What is left of a user: the row, for the sake of what refers to it. */
  function Erased(user: nat): User {
    User(Tombstone(user), "Deleted user", None, None, None, false, "", false, None)
  }

  /** The memberships go and the user is anonymised; the sole-owner test is not repeated here. */
  function Processed(w: World, id: nat): World {
    if Effective(w, id) then
      var user := w.requests[id].user;
      w.(members := Without(w.members, user), users := w.users[user := Erased(user)],
         requests := w.requests[id := w.requests[id].(status := Completed)])
    else if id < |w.requests| && w.requests[id].status == GracePeriod then
      w.(requests := w.requests[id := w.requests[id].(status := Failed)])
    else w
  }

  // ------------------------------------------------------------------
  // Runs
  // ------------------------------------------------------------------

  datatype Event =
    | Create(gstin: Option<string>, actor: nat)
    | Add(company: nat, target: Option<nat>, role: Role, actor: nat)
    | SetRole(seat: Seat, role: Role, actor: nat)
    | Remove(seat: Seat, actor: nat)
    | RequestDeletion(user: nat, now: int)
    | CancelDeletion(user: nat)
    | Process(id: nat)
    | Fail(id: nat)            // the worker marks a request whose processing broke

  function Step(w: World, e: Event): World {
    match e
    case Create(gstin, actor) =>
      if CreateRefusal(w, gstin).Some? then w
      else w.(companies := w.companies + [gstin], members := w.members[Seat(|w.companies|, actor) := Owner])
    case Add(company, target, role, actor) =>
      if AddRefusal(w, company, target, actor).Some? then w
      else w.(members := w.members[Seat(company, target.value) := role])
    case SetRole(seat, role, actor) =>
      if RoleRefusal(w, seat, role, actor).Some? then w else w.(members := w.members[seat := role])
    case Remove(seat, actor) =>
      if RemoveRefusal(w, seat, actor).Some? then w else w.(members := w.members - {seat})
    case RequestDeletion(user, now) =>
      if Pending(w, user) || RequestRefusal(w, user).Some? then w
      else w.(requests := w.requests + [Request(user, now + GRACE_PERIOD, GracePeriod)])
    case CancelDeletion(user) =>
      var k := FirstPending(w, user, 0);
      if k == |w.requests| then w else w.(requests := w.requests[k := w.requests[k].(status := Withdrawn)])
    case Process(id) => Processed(w, id)
    case Fail(id) =>
      if id < |w.requests| then w.(requests := w.requests[id := w.requests[id].(status := Failed)]) else w
  }

  function Run(w: World, events: seq<Event>): World
    decreases |events|
  {
    if events == [] then w else Run(Step(w, events[0]), events[1..])
  }

  // ------------------------------------------------------------------
  // The services
  // ------------------------------------------------------------------

  class Database {
    var world: World

    constructor (world: World)
      ensures this.world == world
    {
      this.world := world;
    }
  }

  class CompanyService {
    const db: Database

    constructor (db: Database)
      ensures this.db == db
    {
      this.db := db;
    }

    method Create(gstin: Option<string>, actor: nat) returns (error: Option<Error>)
      modifies db
      ensures error == CreateRefusal(old(db.world), gstin)
      ensures db.world == Step(old(db.world), Event.Create(gstin, actor))
    {
      var w := db.world;
      if gstin.Some? && exists c | 0 <= c < |w.companies| :: w.companies[c] == gstin {
        return Some(GstinAlreadyRegistered);
      }
      db.world := w.(companies := w.companies + [gstin]);
      db.world := db.world.(members := w.members[Seat(|w.companies|, actor) := Owner]);
      return None;
    }

    method OwnerCount(company: nat) returns (count: nat)
      ensures count == |Owners(db.world.members, company)|
    {
      count := |Owners(db.world.members, company)|;
    }

    method AddMember(company: nat, target: Option<nat>, role: Role, actor: nat) returns (error: Option<Error>)
      modifies db
      ensures error == AddRefusal(old(db.world), company, target, actor)
      ensures db.world == Step(old(db.world), Add(company, target, role, actor))
    {
      var w := db.world;
      if Seat(company, actor) !in w.members {
        return Some(CompanyNotFound);
      }
      if w.members[Seat(company, actor)] != Owner {
        return Some(InsufficientRole);
      }
      if target.None? {
        return Some(UserNotFound);
      }
      if Seat(company, target.value) in w.members {
        return Some(AlreadyMember);
      }
      db.world := w.(members := w.members[Seat(company, target.value) := role]);
      return None;
    }

    method SetMemberRole(company: nat, target: nat, role: Role, actor: nat) returns (error: Option<Error>)
      modifies db
      ensures error == RoleRefusal(old(db.world), Seat(company, target), role, actor)
      ensures db.world == Step(old(db.world), SetRole(Seat(company, target), role, actor))
    {
      var w, seat := db.world, Seat(company, target);
      if Seat(company, actor) !in w.members {
        return Some(CompanyNotFound);
      }
      if w.members[Seat(company, actor)] != Owner {
        return Some(InsufficientRole);
      }
      if seat !in w.members {
        return Some(UserNotFound);
      }
      if w.members[seat] == role {
        assert w.members[seat := role] == w.members;
        return None;
      }
      if w.members[seat] == Owner {
        var count := OwnerCount(company);
        if count <= 1 {
          return Some(OwnershipTransferRequired);
        }
      }
      db.world := w.(members := w.members[seat := role]);
      return None;
    }

    method RemoveMember(company: nat, target: nat, actor: nat) returns (error: Option<Error>)
      modifies db
      ensures error == RemoveRefusal(old(db.world), Seat(company, target), actor)
      ensures db.world == Step(old(db.world), Remove(Seat(company, target), actor))
    {
      var w, seat := db.world, Seat(company, target);
      if Seat(company, actor) !in w.members {
        return Some(CompanyNotFound);
      }
      if w.members[Seat(company, actor)] != Owner {
        return Some(InsufficientRole);
      }
      if seat !in w.members {
        return Some(UserNotFound);
      }
      if w.members[seat] == Owner {
        var count := OwnerCount(company);
        if count <= 1 {
          return Some(OwnershipTransferRequired);
        }
      }
      db.world := w.(members := w.members - {seat});
      return None;
    }
  }

  /** The companies that would be orphaned, each of them once. */
  method SoleOwnerCompanies(members: Members, user: nat) returns (blocked: seq<nat>)
    ensures forall c :: c in blocked <==> c in SolelyOwned(members, user)
    ensures forall i, j | 0 <= i < j < |blocked| :: blocked[i] != blocked[j]
  {
    var owned := set s | s in members && s.user == user && members[s] == Owner :: s.company;
    var todo := owned;
    blocked := [];
    while todo != {}
      invariant todo <= owned
      invariant forall c :: c in blocked <==> c in owned - todo && SoleOwner(members, c, user)
      invariant forall i, j | 0 <= i < j < |blocked| :: blocked[i] != blocked[j]
      decreases |todo|
    {
      var c :| c in todo;
      assert c !in blocked;
      todo := todo - {c};
      var otherOwner := exists s | s in members :: s.company == c && members[s] == Owner && s.user != user;
      if !otherOwner {
        blocked := blocked + [c];
      }
    }
  }

  /** Open a grace period; a second request finds the first. */
  method OpenRequest(db: Database, user: nat, now: int) returns (error: Option<Error>)
    modifies db
    ensures error == RequestRefusal(old(db.world), user)
    ensures db.world == Step(old(db.world), RequestDeletion(user, now))
  {
    var w := db.world;
    if Pending(w, user) {
      return None;
    }
    var blocked := SoleOwnerCompanies(w.members, user);
    if blocked != [] {
      assert blocked[0] in SolelyOwned(w.members, user);
      return Some(OwnershipTransferRequired);
    }
    db.world := w.(requests := w.requests + [Request(user, now + GRACE_PERIOD, GracePeriod)]);
    return None;
  }

  method WithdrawRequest(db: Database, user: nat) returns (error: Option<Error>)
    modifies db
    ensures error == if Pending(old(db.world), user) then None else Some(NoPendingRequest)
    ensures db.world == Step(old(db.world), CancelDeletion(user))
  {
    var k := FirstPending(db.world, user, 0);
    if k == |db.world.requests| {
      return Some(NoPendingRequest);
    }
    db.world := db.world.(requests := db.world.requests[k := db.world.requests[k].(status := Withdrawn)]);
    return None;
  }

  method ProcessDueDeletion(db: Database, id: nat) returns (error: Option<Error>)
    modifies db
    ensures db.world == Processed(old(db.world), id)
    ensures error == if id < |old(db.world).requests| then None else Some(RequestNotFound)
  {
    var w := db.world;
    if id >= |w.requests| {
      return Some(RequestNotFound);
    }
    if w.requests[id].status != GracePeriod {
      return None;
    }
    var user := w.requests[id].user;
    if user !in w.users {
      db.world := w.(requests := w.requests[id := w.requests[id].(status := Failed)]);
      return None;
    }
    db.world := w.(members := Without(w.members, user));
    db.world := db.world.(users := w.users[user := Erased(user)]);
    db.world := db.world.(requests := w.requests[id := w.requests[id].(status := Completed)]);
    return None;
  }

  lemma {:induction false} RunOneMore(w: World, events: seq<Event>, e: Event)
    ensures Run(w, events + [e]) == Step(Run(w, events), e)
    decreases |events|
  {
    if events == [] {
      assert (events + [e])[1..] == [];
      assert Run(Step(w, e), []) == Step(w, e);
    } else {
      assert (events + [e])[1..] == events[1..] + [e];
      RunOneMore(Step(w, events[0]), events[1..], e);
    }
  }

  // ------------------------------------------------------------------
  // Every company keeps an owner
  // ------------------------------------------------------------------

  predicate HasOwner(w: World, company: nat) {
    exists s | s in w.members :: s.company == company && w.members[s] == Owner
  }

  ghost predicate AllOwned(w: World) {
    forall c | 0 <= c < |w.companies| :: HasOwner(w, c)
  }

  /** No membership of a company that does not exist. */
  ghost predicate SeatsExist(w: World) {
    forall s | s in w.members :: s.company < |w.companies|
  }

  lemma {:induction false} StepKeepsSeats(w: World, e: Event)
    requires SeatsExist(w)
    ensures SeatsExist(Step(w, e)) && |w.companies| <= |Step(w, e).companies|
  {
  }

  /** By the count an owner is the last one exactly when no other seat of the company is an owner's. */
  lemma {:induction false} LastOwnerIff(w: World, seat: Seat)
    requires seat in w.members && w.members[seat] == Owner
    ensures LastOwner(w, seat) <==>
            forall s | s in w.members && s.company == seat.company && w.members[s] == Owner :: s == seat
  {
    var owners := Owners(w.members, seat.company);
    var others := owners - {seat.user};
    assert seat.user in owners && |others| == |owners| - 1;
    if others == {} {
      forall s | s in w.members && s.company == seat.company && w.members[s] == Owner ensures s == seat {
        assert s.user in owners;
      }
    } else {
      var u :| u in others;
      assert Seat(seat.company, u) in w.members;
    }
  }

  /** An ownerless company stays ownerless: only owners can make owners. */
  lemma {:induction false} OwnerlessStays(w: World, e: Event, company: nat)
    requires SeatsExist(w) && company < |w.companies| && !HasOwner(w, company)
    ensures !HasOwner(Step(w, e), company)
  {
  }

  /** The processing of a request passes the sole-owner test at that moment, or does nothing. */
  predicate Passes(w: World, e: Event) {
    e.Process? && Effective(w, e.id) ==> SolelyOwned(w.members, w.requests[e.id].user) == {}
  }

  predicate AllPass(w: World, events: seq<Event>)
    decreases |events|
  {
    events == [] || (Passes(w, events[0]) && AllPass(Step(w, events[0]), events[1..]))
  }

  lemma {:induction false} ChangeKeepsOwned(w: World, seat: Seat, after: Members)
    requires AllOwned(w) && !LastOwner(w, seat)
    requires forall s | s in w.members && s != seat :: s in after && after[s] == w.members[s]
    ensures AllOwned(w.(members := after))
  {
    forall c | 0 <= c < |w.companies| ensures HasOwner(w.(members := after), c) {
      assert HasOwner(w, c);
      var s :| s in w.members && s.company == c && w.members[s] == Owner;
      if s == seat {
        LastOwnerIff(w, seat);
        var t :| t in w.members && t.company == c && w.members[t] == Owner && t != seat;
        assert after[t] == Owner;
      }
    }
  }

  lemma {:induction false} SoleOwnerIff(w: World, user: nat, company: nat)
    requires HasOwner(w, company)
    ensures HasOwner(w.(members := Without(w.members, user)), company) <==> company !in SolelyOwned(w.members, user)
  {
    var after := w.(members := Without(w.members, user));
    if SoleOwner(w.members, company, user) {
      assert Seat(company, user) in w.members;
    } else {
      var s :| s in w.members && s.company == company && w.members[s] == Owner;
      if s.user == user {
        assert s == Seat(company, user);
        var t :| t in w.members && t.company == company && w.members[t] == Owner && t.user != user;
        assert t in after.members;
      } else {
        assert s in after.members;
      }
    }
  }

  /** A step keeps every company owned exactly when it is not the processing of a sole owner's request. */
  lemma {:induction false} StepKeepsOwnedIff(w: World, e: Event)
    requires SeatsExist(w) && AllOwned(w)
    ensures AllOwned(Step(w, e)) <==> Passes(w, e)
  {
    var next := Step(w, e);
    match e
    case Create(gstin, actor) =>
      forall c | 0 <= c < |next.companies| ensures HasOwner(next, c) {
        if c < |w.companies| {
          assert HasOwner(w, c);
          var s :| s in w.members && s.company == c && w.members[s] == Owner;
          assert s in next.members && next.members[s] == Owner;
        } else {
          assert Seat(c, actor) in next.members;
        }
      }
    case Add(company, target, role, actor) =>
      if target.Some? {
        AddedKeepsOwned(w, company, target, role, actor);
      }
    case SetRole(seat, role, actor) =>
      if RoleRefusal(w, seat, role, actor).None? {
        RoleKeepsOwned(w, seat, role);
      }
    case Remove(seat, actor) =>
      if RemoveRefusal(w, seat, actor).None? {
        ChangeKeepsOwned(w, seat, w.members - {seat});
      }
    case Process(id) =>
      if Effective(w, id) {
        ProcessKeepsOwnedIff(w, id);
      } else {
        SameOwners(w, next);
      }
    case RequestDeletion(_, _) => SameOwners(w, next);
    case CancelDeletion(_) => SameOwners(w, next);
    case Fail(_) => SameOwners(w, next);
  }

  lemma {:induction false} SameOwners(w: World, next: World)
    requires next.members == w.members && next.companies == w.companies
    ensures AllOwned(next) <==> AllOwned(w)
  {
    forall c ensures HasOwner(next, c) <==> HasOwner(w, c) {
    }
  }

  lemma {:induction false} AddedKeepsOwned(w: World, company: nat, target: Option<nat>, role: Role, actor: nat)
    requires AllOwned(w) && target.Some?
    ensures AllOwned(Step(w, Add(company, target, role, actor)))
  {
    var seat := Seat(company, target.value);
    if AddRefusal(w, company, target, actor).None? {
      ChangeKeepsOwned(w, seat, w.members[seat := role]);
    }
  }

  lemma {:induction false} RoleKeepsOwned(w: World, seat: Seat, role: Role)
    requires AllOwned(w) && seat in w.members && (role == Owner || !LastOwner(w, seat))
    ensures AllOwned(w.(members := w.members[seat := role]))
  {
    var next := w.(members := w.members[seat := role]);
    if role == Owner {
      forall c | 0 <= c < |w.companies| ensures HasOwner(next, c) {
        assert HasOwner(w, c);
        var s :| s in w.members && s.company == c && w.members[s] == Owner;
        assert s in next.members && next.members[s] == Owner;
      }
    } else {
      ChangeKeepsOwned(w, seat, w.members[seat := role]);
    }
  }

  lemma {:induction false} ProcessKeepsOwnedIff(w: World, id: nat)
    requires SeatsExist(w) && AllOwned(w) && Effective(w, id)
    ensures AllOwned(Processed(w, id)) <==> SolelyOwned(w.members, w.requests[id].user) == {}
  {
    var user := w.requests[id].user;
    var after := w.(members := Without(w.members, user));
    forall c | 0 <= c < |w.companies| ensures HasOwner(after, c) <==> c !in SolelyOwned(w.members, user) {
      assert HasOwner(w, c);
      SoleOwnerIff(w, user, c);
    }
    SameOwners(after, Processed(w, id));
    forall c | c in SolelyOwned(w.members, user) ensures c < |w.companies| && !HasOwner(after, c) {
      assert Seat(c, user) in w.members;
    }
  }

  lemma {:induction false} OwnerlessForever(w: World, events: seq<Event>, company: nat)
    requires SeatsExist(w) && company < |w.companies| && !HasOwner(w, company)
    ensures company < |Run(w, events).companies| && !HasOwner(Run(w, events), company)
    decreases |events|
  {
    if events != [] {
      StepKeepsSeats(w, events[0]);
      OwnerlessStays(w, events[0], company);
      OwnerlessForever(Step(w, events[0]), events[1..], company);
    }
  }

  /**
   Over every run of creating, adding, changing, removing and erasing: every company has an owner at
   the end if and only if every request that was carried out still passed the sole-owner test when
   it was carried out.
   */
  lemma {:induction false} CompaniesKeepOwnersIff(w: World, events: seq<Event>)
    requires SeatsExist(w) && AllOwned(w)
    ensures AllOwned(Run(w, events)) <==> AllPass(w, events)
    decreases |events|
  {
    if events != [] {
      var next := Step(w, events[0]);
      StepKeepsSeats(w, events[0]);
      StepKeepsOwnedIff(w, events[0]);
      if Passes(w, events[0]) {
        CompaniesKeepOwnersIff(next, events[1..]);
      } else {
        var c :| 0 <= c < |next.companies| && !HasOwner(next, c);
        OwnerlessForever(next, events[1..], c);
      }
    }
  }

  /** Without erasures every company always has an owner. */
  lemma {:induction false} MembersAloneKeepOwners(w: World, events: seq<Event>)
    requires SeatsExist(w) && AllOwned(w) && forall i | 0 <= i < |events| :: !events[i].Process?
    ensures AllOwned(Run(w, events))
    decreases |events|
  {
    if events != [] {
      StepKeepsSeats(w, events[0]);
      StepKeepsOwnedIff(w, events[0]);
      MembersAloneKeepOwners(Step(w, events[0]), events[1..]);
    }
  }

  lemma {:induction false} FourSteps(w: World, a: Event, b: Event, c: Event, d: Event)
    ensures Run(w, [a, b]) == Step(Step(w, a), b)
    ensures Run(w, [a, b, c, d]) == Step(Step(Step(Step(w, a), b), c), d)
  {
    RunOneMore(w, [], a);
    RunOneMore(w, [a], b);
    RunOneMore(w, [a, b], c);
    RunOneMore(w, [a, b, c], d);
    assert [] + [a] == [a] && [a] + [b] == [a, b] && [a, b] + [c] == [a, b, c] && [a, b, c] + [d] == [a, b, c, d];
  }

  /** Two co-owners: neither is a sole owner, and when both have gone nobody is left. */
  lemma {:induction false} TwoOwners(m: Members, a: nat, b: nat)
    requires a != b && m == map[Seat(0, a) := Owner, Seat(0, b) := Owner]
    ensures SolelyOwned(m, a) == {} && SolelyOwned(m, b) == {}
    ensures Without(Without(m, a), b) == map[]
  {
    assert Seat(0, a) in m && Seat(0, b) in m;
  }

  /** Two co-owners may both ask, and both requests are carried out: the company has nobody. */
  lemma {:induction false} BothOwnersLeave(a: nat, b: nat, users: Users, now: int)
    requires a != b && a in users && b in users
    ensures
      var w := World([None], map[Seat(0, a) := Owner, Seat(0, b) := Owner], users, []);
      var ra, rb := RequestDeletion(a, now), RequestDeletion(b, now);
      var asked := Run(w, [ra, rb]);
      var end := Run(w, [ra, rb, Process(0), Process(1)]);
      && HasOwner(w, 0) && Passes(asked, Process(0)) && Passes(asked, Process(1))
      && end.members == map[] && |end.companies| == 1 && !HasOwner(end, 0)
  {
    var m := map[Seat(0, a) := Owner, Seat(0, b) := Owner];
    var w := World([None], m, users, []);
    var ra, rb := Request(a, now + GRACE_PERIOD, GracePeriod), Request(b, now + GRACE_PERIOD, GracePeriod);
    assert Seat(0, a) in m;
    TwoOwners(m, a, b);
    var w1, w2 := w.(requests := [ra]), w.(requests := [ra, rb]);
    assert Step(w, RequestDeletion(a, now)) == w1;
    assert Step(w1, RequestDeletion(b, now)) == w2;
    assert Processed(w2, 0).members == Without(m, a) && Processed(w2, 0).requests[1] == rb;
    FourSteps(w, RequestDeletion(a, now), RequestDeletion(b, now), Process(0), Process(1));
  }

  // ------------------------------------------------------------------
  // Erasure
  // ------------------------------------------------------------------

  /** Nothing of an erased user's profile is left: whatever it was, the outcome is the same. */
  lemma {:induction false} ErasureForgets(w: World, id: nat, other: User)
    requires Effective(w, id)
    ensures Processed(w.(users := w.users[w.requests[id].user := other]), id) == Processed(w, id)
    ensures forall s | s in Processed(w, id).members :: s.user != w.requests[id].user
  {
    var user := w.requests[id].user;
    assert w.users[user := other][user := Erased(user)] == w.users[user := Erased(user)];
  }
}
