/**
 * `getTravelBuddiesFromDB`
 * (src/app/modules/travelBuddyRequest/travelBuddyRequest.service.ts): look the
 * trip up by id and owner, failing when there is none, then list every request
 * for that trip with the requester's name, e-mail and profile. It reads a
 * snapshot of the store and changes nothing.
 */
module BuddyService {
  import opened Wrappers
  import opened Errors
  import opened Records

  /** The `user` the request listing includes: only name, e-mail and profile. */
  datatype Requester = Requester(name: string, email: string, profile: Option<Profile>)

  /** One listed request with its requester. */
  datatype BuddyEntry = BuddyEntry(request: BuddyRequest, user: Requester)

  /** What `findUniqueOrThrow` throws when no row matches (error code P2025); its message text is not modelled. */
  const NotFound := Thrown(PrismaKnownRequest("P2025"), "No record was found for a query.", None)

  /** Every request's requester is a stored user, as the database's foreign key guarantees. */
  predicate ForeignKeysHold(requests: seq<BuddyRequest>, users: seq<User>) {
    forall q | q in requests :: exists u | u in users :: u.id == q.userId
  }

  /** `where: { id: tripId, userId }`; an undefined userId is no condition at all. */
  predicate TripMatches(t: Trip, tripId: string, caller: Option<string>) {
    t.id == tripId && (caller.None? || t.userId == caller.value)
  }

  /** The first stored trip with the id and, when given, the owner. */
  function FindTrip(trips: seq<Trip>, tripId: string, caller: Option<string>): (r: Option<Trip>)
    ensures r.Some? <==> exists t | t in trips :: TripMatches(t, tripId, caller)
    ensures r.Some? ==> r.value in trips && TripMatches(r.value, tripId, caller)
  {
    if trips == [] then None
    else if TripMatches(trips[0], tripId, caller) then Some(trips[0])
    else FindTrip(trips[1..], tripId, caller)
  }

  /** The stored user with the id. */
  function FindUser(users: seq<User>, id: string): (u: User)
    requires exists u | u in users :: u.id == id
    ensures u in users && u.id == id
  {
    if users[0].id == id then users[0] else FindUser(users[1..], id)
  }

  /** The requester as the listing projects them. */
  function Project(u: User): Requester {
    Requester(u.name, u.email, u.profile)
  }

  /** The requests a listing carries, entry by entry. */
  function Reqs(entries: seq<BuddyEntry>): seq<BuddyRequest> {
    seq(|entries|, i requires 0 <= i < |entries| => entries[i].request)
  }

  lemma ReqsCons(e: BuddyEntry, rest: seq<BuddyEntry>)
    ensures Reqs([e] + rest) == [e.request] + Reqs(rest)
  {
    var l, r := Reqs([e] + rest), [e.request] + Reqs(rest);
    assert |l| == |r|;
    forall i | 0 <= i < |l| ensures l[i] == r[i] {
      if i > 0 {
        assert ([e] + rest)[i] == rest[i - 1];
      }
    }
  }

  /**
   * `travelBuddyRequest.findMany({ where: { tripId }, include: { user: ... } })`.
   * The query names no order, so none is promised; each stored request for the
   * trip is listed exactly once.
   */
  function RequestsFor(requests: seq<BuddyRequest>, users: seq<User>, tripId: string): (r: seq<BuddyEntry>)
    requires ForeignKeysHold(requests, users)
    ensures |r| <= |requests|
    ensures forall e | e in r :: e.request in requests && e.request.tripId == tripId
    ensures forall q | q in requests && q.tripId == tripId :: exists e | e in r :: e.request == q
    ensures forall e | e in r :: exists u | u in users :: u.id == e.request.userId && e.user == Project(u)
  {
    if requests == [] then []
    else
      var q := requests[0];
      assert forall x | x in requests[1..] :: x in requests;
      var rest := RequestsFor(requests[1..], users, tripId);
      if q.tripId == tripId then
        var u := FindUser(users, q.userId);
        assert BuddyEntry(q, Project(u)) in [BuddyEntry(q, Project(u))] + rest;
        [BuddyEntry(q, Project(u))] + rest
      else rest
  }

  /** Each stored request for the trip is listed exactly once, and no other request is. */
  lemma {:induction false} RequestsForOnce(requests: seq<BuddyRequest>, users: seq<User>, tripId: string)
    requires ForeignKeysHold(requests, users)
    ensures forall q :: multiset(Reqs(RequestsFor(requests, users, tripId)))[q] == if q.tripId == tripId then multiset(requests)[q] else 0
  {
    if requests != [] {
      var q := requests[0];
      assert forall x | x in requests[1..] :: x in requests;
      assert requests == [q] + requests[1..];
      assert multiset(requests) == multiset{q} + multiset(requests[1..]);
      RequestsForOnce(requests[1..], users, tripId);
      var rest := RequestsFor(requests[1..], users, tripId);
      if q.tripId == tripId {
        var e := BuddyEntry(q, Project(FindUser(users, q.userId)));
        assert RequestsFor(requests, users, tripId) == [e] + rest;
        ReqsCons(e, rest);
      } else {
        assert RequestsFor(requests, users, tripId) == rest;
      }
    }
  }

  /** The whole operation: P2025 when no trip matches, otherwise every request for the trip. */
  function GetTravelBuddiesFromDB(trips: seq<Trip>, requests: seq<BuddyRequest>, users: seq<User>, tripId: string, caller: Option<string>)
    : (r: Result<seq<BuddyEntry>, Thrown>)
    requires ForeignKeysHold(requests, users)
    ensures r.Success? <==> exists t | t in trips :: TripMatches(t, tripId, caller)
    ensures r.Failure? ==> r.error == NotFound
    ensures r.Success? ==> forall e | e in r.value :: e.request in requests && e.request.tripId == tripId
    ensures r.Success? ==> forall q | q in requests && q.tripId == tripId :: exists e | e in r.value :: e.request == q
    ensures r.Success? ==> forall q :: multiset(Reqs(r.value))[q] == if q.tripId == tripId then multiset(requests)[q] else 0
    ensures r.Success? ==> forall e | e in r.value :: exists u | u in users :: u.id == e.request.userId && e.user == Project(u)
  {
    if FindTrip(trips, tripId, caller).None? then Failure(NotFound)
    else
      RequestsForOnce(requests, users, tripId);
      Success(RequestsFor(requests, users, tripId))
  }

  /** For a known caller, a trip owned by someone else behaves exactly like a missing one. */
  lemma {:induction false} OtherOwnerLikeMissing(trips: seq<Trip>, other: Trip, requests: seq<BuddyRequest>, users: seq<User>, tripId: string, caller: string)
    requires ForeignKeysHold(requests, users)
    requires other.userId != caller
    ensures GetTravelBuddiesFromDB(trips + [other], requests, users, tripId, Some(caller))
         == GetTravelBuddiesFromDB(trips, requests, users, tripId, Some(caller))
  {
    FindTripAppend(trips, other, tripId, Some(caller));
  }

  lemma {:induction false} FindTripAppend(trips: seq<Trip>, other: Trip, tripId: string, caller: Option<string>)
    requires !TripMatches(other, tripId, caller)
    ensures FindTrip(trips + [other], tripId, caller) == FindTrip(trips, tripId, caller)
  {
    if trips == [] {
      assert [] + [other] == [other];
    } else {
      assert (trips + [other])[1..] == trips[1..] + [other];
      FindTripAppend(trips[1..], other, tripId, caller);
    }
  }

  /** With an undefined caller id the ownership condition disappears: any trip with the id gives the full request list. */
  lemma UndefinedCallerUnscoped(trips: seq<Trip>, requests: seq<BuddyRequest>, users: seq<User>, tripId: string, t: Trip)
    requires ForeignKeysHold(requests, users)
    requires t in trips && t.id == tripId
    ensures GetTravelBuddiesFromDB(trips, requests, users, tripId, None) == Success(RequestsFor(requests, users, tripId))
  {
    assert TripMatches(t, tripId, None);
  }
}
