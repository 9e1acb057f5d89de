/** Who sees which help request (`filteredRequests`, app/page.tsx:236-257)
    and who may act on it (`canInteract` and the guard on the
    assign-volunteer button in `HelpRequestCard`, app/page.tsx:1509-1514
    and 1718). */
module Visibility {
  import opened Domain
  import opened Seqs
  import opened Text

  /** The condition every viewer without a special claim needs. */
  predicate PublicApproved(r: HelpRequest)
  {
    !r.isPrivate && r.status == RequestStatus.Approved
  }

  /** `request.volunteers.some((v) => v.volunteerId === userId)` */
  predicate IsAssigned(r: HelpRequest, userId: string)
  {
    exists i :: 0 <= i < |r.volunteers| && r.volunteers[i].volunteerId == userId
  }

  /** The role-based part of `filteredRequests`. The branches test for no
      user, a requester and a volunteer; every other signed-in user (an
      admin, and also a signed-in visitor) passes unconditionally. */
  predicate CanView(viewer: Option<User>, r: HelpRequest)
    ensures PublicApproved(r) ==> CanView(viewer, r)
    ensures CanView(viewer, r) && !PublicApproved(r) ==> viewer.Some?
  {
    match viewer
    case None => PublicApproved(r)
    case Some(u) =>
      match u.role
      case Requester => r.authorId == u.id || PublicApproved(r)
      case Volunteer => IsAssigned(r, u.id) || PublicApproved(r)
      case Admin => true
      case Visitor => true
  }

  /** The search box: the lowered term is a substring of the lowered title,
      description or location. */
  predicate MatchesSearch(r: HelpRequest, term: string)
  {
    var t := Lower(term);
    Includes(Lower(r.title), t) || Includes(Lower(r.description), t) || Includes(Lower(r.location), t)
  }

  predicate MatchesCategory(r: HelpRequest, category: string)
  {
    category == "all" || r.category == category
  }

  /** The whole predicate `filteredRequests` passes to `filter`. */
  predicate Shown(viewer: Option<User>, term: string, category: string, r: HelpRequest)
  {
    CanView(viewer, r) && MatchesSearch(r, term) && MatchesCategory(r, category)
  }

  /** `filteredRequests`: the shown requests, in board order. */
  function FilterRequests(viewer: Option<User>, rs: seq<HelpRequest>, term: string, category: string)
    : (r: seq<HelpRequest>)
    ensures IsSubsequence(r, rs)
    ensures forall i :: 0 <= i < |rs| ==> (rs[i] in r <==> Shown(viewer, term, category, rs[i]))
    ensures forall q :: multiset(r)[q] == if Shown(viewer, term, category, q) then multiset(rs)[q] else 0
  {
    Filter(rs, (q: HelpRequest) => Shown(viewer, term, category, q))
  }

  /** Without a user, a request is visible exactly when it is public and
      approved. */
  lemma AnonymousView(r: HelpRequest)
    ensures CanView(None, r) <==> !r.isPrivate && r.status == RequestStatus.Approved
  {
  }

  /** A requester always sees their own requests, whatever their status and
      privacy, and otherwise sees what an anonymous viewer sees. */
  lemma RequesterView(u: User, r: HelpRequest)
    requires u.role == Requester
    ensures r.authorId == u.id ==> CanView(Some(u), r)
    ensures r.authorId != u.id ==> (CanView(Some(u), r) <==> CanView(None, r))
  {
  }

  /** A volunteer always sees requests they are assigned to, and otherwise
      sees what an anonymous viewer sees. */
  lemma VolunteerView(u: User, r: HelpRequest)
    requires u.role == Role.Volunteer
    ensures IsAssigned(r, u.id) ==> CanView(Some(u), r)
    ensures !IsAssigned(r, u.id) ==> (CanView(Some(u), r) <==> CanView(None, r))
  {
  }

  /** An admin, and a signed-in visitor, see every request. */
  lemma UnrestrictedView(u: User, r: HelpRequest)
    requires u.role == Admin || u.role == Visitor
    ensures CanView(Some(u), r)
  {
  }

  /** The search matches exactly when the lowered term occurs at some
      position of one of the three lowered fields. */
  lemma MatchesSearchIff(r: HelpRequest, term: string)
    ensures MatchesSearch(r, term) <==>
      (exists i :: OccursAt(Lower(r.title), Lower(term), i)) ||
      (exists i :: OccursAt(Lower(r.description), Lower(term), i)) ||
      (exists i :: OccursAt(Lower(r.location), Lower(term), i))
  {
    IncludesIff(Lower(r.title), Lower(term));
    IncludesIff(Lower(r.description), Lower(term));
    IncludesIff(Lower(r.location), Lower(term));
    assert MatchesSearch(r, term) <==>
      Includes(Lower(r.title), Lower(term)) || Includes(Lower(r.description), Lower(term)) ||
      Includes(Lower(r.location), Lower(term));
  }

  /** The empty search in category "all" filters nothing for an admin. */
  lemma AdminSeesWholeBoard(u: User, rs: seq<HelpRequest>)
    requires u.role == Admin
    ensures FilterRequests(Some(u), rs, "", "all") == rs
  {
    forall i | 0 <= i < |rs|
      ensures Shown(Some(u), "", "all", rs[i])
    {
      IncludesEmpty(Lower(rs[i].title));
    }
    FilterAll(rs, (q: HelpRequest) => Shown(Some(u), "", "all", q));
  }

  /** `canInteract`: a signed-in user who is an admin, or the request is
      approved, or they wrote it, or they are assigned to it. */
  predicate CanInteract(viewer: Option<User>, r: HelpRequest)
    ensures CanInteract(viewer, r) ==> viewer.Some?
    ensures viewer.Some? && r.status == RequestStatus.Approved ==> CanInteract(viewer, r)
  {
    match viewer
    case None => false
    case Some(u) =>
      u.role == Admin || r.status == RequestStatus.Approved || r.authorId == u.id || IsAssigned(r, u.id)
  }

  /** Nobody who is not signed in may interact; a signed-in user may
      interact with a request exactly when they are an admin, wrote it, are
      assigned to it, or it is approved. */
  lemma InteractRules(viewer: Option<User>, r: HelpRequest)
    ensures viewer.None? ==> !CanInteract(viewer, r)
    ensures viewer.Some? && viewer.value.role == Admin ==> CanInteract(viewer, r)
    ensures viewer.Some? && r.authorId == viewer.value.id ==> CanInteract(viewer, r)
    ensures viewer.Some? && IsAssigned(r, viewer.value.id) ==> CanInteract(viewer, r)
    ensures viewer.Some? && r.status == RequestStatus.Approved ==> CanInteract(viewer, r)
    ensures viewer.Some? && CanInteract(viewer, r) ==>
      viewer.value.role == Admin || r.status == RequestStatus.Approved || r.authorId == viewer.value.id ||
      IsAssigned(r, viewer.value.id)
  {
  }

  /** For admins, requesters and volunteers, a request they can see is one
      they can interact with. A signed-in visitor is the exception: they see
      every request but may interact only as the rules of `canInteract`
      allow. */
  lemma ViewableIsInteractable(u: User, r: HelpRequest)
    requires u.role != Visitor
    requires CanView(Some(u), r)
    ensures CanInteract(Some(u), r)
  {
  }

  /** `volunteers.filter((v) => v.status === "available")` */
  function AvailableVolunteers(vs: seq<Volunteer>): (r: seq<Volunteer>)
    ensures forall v :: v in r ==> v in vs && v.status == Available
    ensures forall i :: 0 <= i < |vs| && vs[i].status == Available ==> vs[i] in r
  {
    Filter(vs, (v: Volunteer) => v.status == Available)
  }

  /** The "Assign Volunteer" button is drawn inside the `canInteract` block,
      for an admin, when some volunteer is available. */
  predicate ShowAssignAction(viewer: Option<User>, r: HelpRequest, vs: seq<Volunteer>)
    ensures ShowAssignAction(viewer, r, vs) ==> CanInteract(viewer, r) && |vs| > 0
  {
    CanInteract(viewer, r) && viewer.Some? && viewer.value.role == Admin && |AvailableVolunteers(vs)| > 0
  }

  /** The button shows exactly for an admin when at least one volunteer is
      available; the request itself plays no part. */
  lemma ShowAssignActionIff(viewer: Option<User>, r: HelpRequest, vs: seq<Volunteer>)
    ensures ShowAssignAction(viewer, r, vs) <==>
      viewer.Some? && viewer.value.role == Admin && exists i :: 0 <= i < |vs| && vs[i].status == Available
  {
    var avail := AvailableVolunteers(vs);
    if |avail| > 0 {
      assert avail[0] in avail;
      var i :| 0 <= i < |vs| && vs[i] == avail[0];
      assert vs[i].status == Available;
    }
    if exists i :: 0 <= i < |vs| && vs[i].status == Available {
      var i :| 0 <= i < |vs| && vs[i].status == Available;
      assert vs[i] in avail;
    }
  }
}
