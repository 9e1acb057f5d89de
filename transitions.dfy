/** The handlers that replace the request and volunteer lists
    (app/page.tsx:315-459) and the lookup in `handleAssignVolunteer`
    (app/page.tsx:1538-1552), as functions from the old lists to the new.
    `Date.now()` becomes the `freshId` parameter; because ids may collide,
    every element whose id matches is updated, exactly as `map` does. */
module Transitions {
  import opened Domain
  import opened Seqs

  /** `handleSubmitRequest`: without a signed-in user nothing happens;
      otherwise a new pending request, written by that user and with no
      offers, comments or assignments, goes to the front of the list. */
  function SubmitRequest(user: Option<User>, rs: seq<HelpRequest>, form: RequestDraft, freshId: string)
    : (r: seq<HelpRequest>)
    ensures user.None? ==> r == rs
    ensures user.Some? ==> |r| == |rs| + 1 && r[1..] == rs
    ensures user.Some? ==>
      && r[0].id == freshId && r[0].timestamp == JustNow
      && r[0].title == form.title && r[0].description == form.description
      && r[0].location == form.location && r[0].category == form.category
      && r[0].urgency == form.urgency && r[0].isPrivate == form.isPrivate
      && r[0].author == user.value.name && r[0].authorId == user.value.id
      && r[0].offers == [] && r[0].comments == [] && r[0].volunteers == []
      && r[0].status == RequestStatus.Pending
  {
    match user
    case None => rs
    case Some(u) =>
      var request := HelpRequest(
        freshId, form.title, form.description, form.location, form.category, form.urgency, JustNow,
        u.name, u.id, [], [], [], RequestStatus.Pending, form.isPrivate);
      [request] + rs
  }

  /** The common shape of `approveRequest` and `rejectRequest`. */
  function SetStatus(rs: seq<HelpRequest>, requestId: string, status: RequestStatus): (r: seq<HelpRequest>)
    ensures |r| == |rs|
    ensures forall i :: 0 <= i < |rs| && rs[i].id == requestId ==>
      r[i].status == status && r[i].(status := rs[i].status) == rs[i]
    ensures forall i :: 0 <= i < |rs| && rs[i].id != requestId ==> r[i] == rs[i]
  {
    MapSeq(rs, (q: HelpRequest) => if q.id == requestId then q.(status := status) else q)
  }

  /** `approveRequest`: every request with the id becomes approved, whatever
      its status was; nothing else changes. */
  function ApproveRequest(rs: seq<HelpRequest>, requestId: string): (r: seq<HelpRequest>)
    ensures |r| == |rs|
    ensures forall i :: 0 <= i < |rs| && rs[i].id == requestId ==>
      r[i].status == RequestStatus.Approved && r[i].(status := rs[i].status) == rs[i]
    ensures forall i :: 0 <= i < |rs| && rs[i].id != requestId ==> r[i] == rs[i]
  {
    SetStatus(rs, requestId, RequestStatus.Approved)
  }

  /** `rejectRequest`: as `approveRequest`, with status rejected. */
  function RejectRequest(rs: seq<HelpRequest>, requestId: string): (r: seq<HelpRequest>)
    ensures |r| == |rs|
    ensures forall i :: 0 <= i < |rs| && rs[i].id == requestId ==>
      r[i].status == RequestStatus.Rejected && r[i].(status := rs[i].status) == rs[i]
    ensures forall i :: 0 <= i < |rs| && rs[i].id != requestId ==> r[i] == rs[i]
  {
    SetStatus(rs, requestId, RequestStatus.Rejected)
  }

  /** An id that no request carries leaves the list exactly as it was. */
  lemma StatusUnknownIdIsIdentity(rs: seq<HelpRequest>, requestId: string, status: RequestStatus)
    requires forall i :: 0 <= i < |rs| ==> rs[i].id != requestId
    ensures SetStatus(rs, requestId, status) == rs
    ensures ApproveRequest(rs, requestId) == rs && RejectRequest(rs, requestId) == rs
  {
  }

  /** Setting a status twice keeps only the second: approving is idempotent,
      and a later reject (or approve) overrides an earlier decision. */
  lemma StatusLastWriteWins(rs: seq<HelpRequest>, requestId: string, s1: RequestStatus, s2: RequestStatus)
    ensures SetStatus(SetStatus(rs, requestId, s1), requestId, s2) == SetStatus(rs, requestId, s2)
  {
    var once := SetStatus(rs, requestId, s1);
    var twice := SetStatus(once, requestId, s2);
    var direct := SetStatus(rs, requestId, s2);
    assert forall i :: 0 <= i < |rs| ==> twice[i] == direct[i];
  }

  /** `addOffer`: each request with the id gets one offer, with the fresh id
      and "Just now", at the end of its offers. */
  function AddOffer(rs: seq<HelpRequest>, requestId: string, offer: OfferDraft, freshId: string)
    : (r: seq<HelpRequest>)
    ensures |r| == |rs|
    ensures forall i :: 0 <= i < |rs| && rs[i].id == requestId ==>
      && |r[i].offers| == |rs[i].offers| + 1
      && r[i].offers[..|rs[i].offers|] == rs[i].offers
      && r[i].offers[|rs[i].offers|] == HelpOffer(freshId, offer.author, offer.message, JustNow, offer.contact)
      && r[i].(offers := rs[i].offers) == rs[i]
    ensures forall i :: 0 <= i < |rs| && rs[i].id != requestId ==> r[i] == rs[i]
  {
    var o := HelpOffer(freshId, offer.author, offer.message, JustNow, offer.contact);
    MapSeq(rs, (q: HelpRequest) => if q.id == requestId then q.(offers := q.offers + [o]) else q)
  }

  /** Two offers in a row land at the end of the matching request's offers
      in the order they were made; earlier offers stay in place. */
  lemma AddOfferTwice(rs: seq<HelpRequest>, requestId: string, o1: OfferDraft, id1: string, o2: OfferDraft, id2: string)
    ensures var r := AddOffer(AddOffer(rs, requestId, o1, id1), requestId, o2, id2);
      forall i :: 0 <= i < |rs| && rs[i].id == requestId ==>
        r[i].offers == rs[i].offers + [HelpOffer(id1, o1.author, o1.message, JustNow, o1.contact),
                                       HelpOffer(id2, o2.author, o2.message, JustNow, o2.contact)]
  {
    var r1 := AddOffer(rs, requestId, o1, id1);
    var r := AddOffer(r1, requestId, o2, id2);
    forall i | 0 <= i < |rs| && rs[i].id == requestId
      ensures r[i].offers == rs[i].offers + [HelpOffer(id1, o1.author, o1.message, JustNow, o1.contact),
                                             HelpOffer(id2, o2.author, o2.message, JustNow, o2.contact)]
    {
      assert r1[i].offers == rs[i].offers + [HelpOffer(id1, o1.author, o1.message, JustNow, o1.contact)];
      assert r1[i].id == requestId;
    }
  }

  /** `addComment`: as `addOffer`, for the comments. */
  function AddComment(rs: seq<HelpRequest>, requestId: string, comment: CommentDraft, freshId: string)
    : (r: seq<HelpRequest>)
    ensures |r| == |rs|
    ensures forall i :: 0 <= i < |rs| && rs[i].id == requestId ==>
      && |r[i].comments| == |rs[i].comments| + 1
      && r[i].comments[..|rs[i].comments|] == rs[i].comments
      && r[i].comments[|rs[i].comments|] == Comment(freshId, comment.author, comment.message, JustNow)
      && r[i].(comments := rs[i].comments) == rs[i]
    ensures forall i :: 0 <= i < |rs| && rs[i].id != requestId ==> r[i] == rs[i]
  {
    var c := Comment(freshId, comment.author, comment.message, JustNow);
    MapSeq(rs, (q: HelpRequest) => if q.id == requestId then q.(comments := q.comments + [c]) else q)
  }

  /** Offers and comments are separate threads: adding one of each gives the
      same list in either order. */
  lemma OfferCommentCommute(
    rs: seq<HelpRequest>, requestId: string, offer: OfferDraft, offerId: string, comment: CommentDraft,
    commentId: string, otherId: string)
    ensures AddComment(AddOffer(rs, requestId, offer, offerId), otherId, comment, commentId) ==
            AddOffer(AddComment(rs, otherId, comment, commentId), requestId, offer, offerId)
  {
    var a := AddComment(AddOffer(rs, requestId, offer, offerId), otherId, comment, commentId);
    var b := AddOffer(AddComment(rs, otherId, comment, commentId), requestId, offer, offerId);
    assert forall i :: 0 <= i < |rs| ==> a[i] == b[i];
  }

  /** `handleSubmitOffer` of a request card: without a signed-in user
      nothing happens; otherwise the offer is signed with the user's name,
      whatever author the form held. */
  function SubmitOffer(user: Option<User>, rs: seq<HelpRequest>, requestId: string, form: OfferDraft, freshId: string)
    : (r: seq<HelpRequest>)
    ensures user.None? ==> r == rs
    ensures user.Some? ==> |r| == |rs| && forall i :: 0 <= i < |rs| && rs[i].id == requestId ==>
      r[i].offers == rs[i].offers + [HelpOffer(freshId, user.value.name, form.message, JustNow, form.contact)] &&
      r[i].(offers := rs[i].offers) == rs[i]
    ensures forall i :: 0 <= i < |rs| && user.Some? && rs[i].id != requestId ==> r[i] == rs[i]
  {
    match user
    case None => rs
    case Some(u) =>
      var r := AddOffer(rs, requestId, form.(author := u.name), freshId);
      assert forall i :: 0 <= i < |rs| && rs[i].id == requestId ==>
        r[i].offers == r[i].offers[..|rs[i].offers|] + [r[i].offers[|rs[i].offers|]];
      r
  }

  /** `handleSubmitComment` of a request card: as `handleSubmitOffer`, for a
      comment. */
  function SubmitComment(user: Option<User>, rs: seq<HelpRequest>, requestId: string, form: CommentDraft, freshId: string)
    : (r: seq<HelpRequest>)
    ensures user.None? ==> r == rs
    ensures user.Some? ==> |r| == |rs| && forall i :: 0 <= i < |rs| && rs[i].id == requestId ==>
      r[i].comments == rs[i].comments + [Comment(freshId, user.value.name, form.message, JustNow)] &&
      r[i].(comments := rs[i].comments) == rs[i]
    ensures forall i :: 0 <= i < |rs| && user.Some? && rs[i].id != requestId ==> r[i] == rs[i]
  {
    match user
    case None => rs
    case Some(u) =>
      var r := AddComment(rs, requestId, form.(author := u.name), freshId);
      assert forall i :: 0 <= i < |rs| && rs[i].id == requestId ==>
        r[i].comments == r[i].comments[..|rs[i].comments|] + [r[i].comments[|rs[i].comments|]];
      r
  }

  /** The assignment `addVolunteerToRequest` creates from its draft. */
  function NewAssignment(draft: AssignmentDraft, freshId: string): (a: VolunteerAssignment)
    ensures a.id == freshId && a.status == AssignmentStatus.Pending && a.assignedDate == JustNow
    ensures a.volunteerId == draft.volunteerId && a.volunteerName == draft.volunteerName
    ensures a.volunteerContact == draft.volunteerContact && a.skills == draft.skills
    ensures a.message == draft.message
  {
    VolunteerAssignment(
      freshId, draft.volunteerId, draft.volunteerName, draft.volunteerContact, draft.skills,
      AssignmentStatus.Pending, JustNow, draft.message)
  }

  /** The request side of `addVolunteerToRequest`: one pending assignment at
      the end of each matching request's volunteers. */
  function AddAssignment(rs: seq<HelpRequest>, requestId: string, draft: AssignmentDraft, freshId: string)
    : (r: seq<HelpRequest>)
    ensures |r| == |rs|
    ensures forall i :: 0 <= i < |rs| && rs[i].id == requestId ==>
      && |r[i].volunteers| == |rs[i].volunteers| + 1
      && r[i].volunteers[..|rs[i].volunteers|] == rs[i].volunteers
      && r[i].volunteers[|rs[i].volunteers|] == NewAssignment(draft, freshId)
      && r[i].(volunteers := rs[i].volunteers) == rs[i]
    ensures forall i :: 0 <= i < |rs| && rs[i].id != requestId ==> r[i] == rs[i]
  {
    var a := NewAssignment(draft, freshId);
    MapSeq(rs, (q: HelpRequest) => if q.id == requestId then q.(volunteers := q.volunteers + [a]) else q)
  }

  /** The volunteer side of `addVolunteerToRequest`: every volunteer with the
      id records the request and becomes busy. */
  function MarkAssigned(vs: seq<Volunteer>, volunteerId: string, requestId: string): (r: seq<Volunteer>)
    ensures |r| == |vs|
    ensures forall k :: 0 <= k < |vs| && vs[k].id == volunteerId ==>
      && r[k].assignedRequests == vs[k].assignedRequests + [requestId]
      && r[k].status == Busy
      && r[k].(assignedRequests := vs[k].assignedRequests, status := vs[k].status) == vs[k]
    ensures forall k :: 0 <= k < |vs| && vs[k].id != volunteerId ==> r[k] == vs[k]
  {
    MapSeq(vs, (v: Volunteer) =>
      if v.id == volunteerId then v.(assignedRequests := v.assignedRequests + [requestId], status := Busy) else v)
  }

  /** `addVolunteerToRequest`: both lists change in one step. The request
      side is updated even when no volunteer has the draft's id, and the
      volunteer side even when no request has the request id. */
  function AddVolunteerToRequest(
    rs: seq<HelpRequest>, vs: seq<Volunteer>, requestId: string, draft: AssignmentDraft, freshId: string)
    : (r: (seq<HelpRequest>, seq<Volunteer>))
    ensures r.0 == AddAssignment(rs, requestId, draft, freshId)
    ensures r.1 == MarkAssigned(vs, draft.volunteerId, requestId)
  {
    (AddAssignment(rs, requestId, draft, freshId), MarkAssigned(vs, draft.volunteerId, requestId))
  }

  /** `updateVolunteerStatus`: inside each matching request, every
      assignment of the volunteer gets the new status; the assignments keep
      their number and order and every other field. */
  function UpdateVolunteerStatus(
    rs: seq<HelpRequest>, requestId: string, volunteerId: string, newStatus: AssignmentStatus)
    : (r: seq<HelpRequest>)
    ensures |r| == |rs|
    ensures forall i :: 0 <= i < |rs| && rs[i].id == requestId ==>
      && |r[i].volunteers| == |rs[i].volunteers|
      && r[i].(volunteers := rs[i].volunteers) == rs[i]
      && (forall j :: 0 <= j < |rs[i].volunteers| ==>
            r[i].volunteers[j] ==
              if rs[i].volunteers[j].volunteerId == volunteerId
              then rs[i].volunteers[j].(status := newStatus)
              else rs[i].volunteers[j])
    ensures forall i :: 0 <= i < |rs| && rs[i].id != requestId ==> r[i] == rs[i]
  {
    MapSeq(rs, (q: HelpRequest) =>
      if q.id == requestId then
        q.(volunteers := MapSeq(q.volunteers, (a: VolunteerAssignment) =>
             if a.volunteerId == volunteerId then a.(status := newStatus) else a))
      else q)
  }

  /** `addVolunteer`: the new volunteer, with no assignments, no completed
      tasks, rating 5 and the fresh id, goes to the front of the list. */
  function AddVolunteer(vs: seq<Volunteer>, draft: VolunteerDraft, freshId: string): (r: seq<Volunteer>)
    ensures |r| == |vs| + 1 && r[1..] == vs
    ensures r[0].id == freshId && r[0].joinDate == JustNow
    ensures r[0].assignedRequests == [] && r[0].completedTasks == 0 && r[0].rating == 5.0
    ensures r[0].name == draft.name && r[0].email == draft.email && r[0].phone == draft.phone
    ensures r[0].skills == draft.skills && r[0].availability == draft.availability
    ensures r[0].experience == draft.experience && r[0].status == draft.status
  {
    var v := Volunteer.Volunteer(
      freshId, draft.name, draft.email, draft.phone, draft.skills, draft.availability,
      draft.experience, draft.status, [], 0, 5.0, JustNow);
    [v] + vs
  }

  /** `volunteers.find((v) => v.id === volunteerId)`: the first volunteer
      with the id, if there is one. */
  function FindVolunteer(vs: seq<Volunteer>, volunteerId: string): (r: Option<Volunteer>)
    ensures r.None? <==> forall k :: 0 <= k < |vs| ==> vs[k].id != volunteerId
    ensures r.Some? ==> exists k :: 0 <= k < |vs| && vs[k] == r.value && r.value.id == volunteerId &&
                                   forall m :: 0 <= m < k ==> vs[m].id != volunteerId
  {
    if vs == [] then None
    else if vs[0].id == volunteerId then Some(vs[0])
    else
      var r := FindVolunteer(vs[1..], volunteerId);
      assert r.Some? ==> exists k :: 0 <= k < |vs[1..]| && vs[1..][k] == r.value;
      assert forall k :: 1 <= k < |vs| ==> vs[k] == vs[1..][k - 1];
      r
  }

  /** The draft `handleAssignVolunteer` builds from the selected volunteer. */
  function DraftFor(v: Volunteer, message: string): (d: AssignmentDraft)
    ensures d.volunteerId == v.id && d.volunteerName == v.name && d.volunteerContact == v.email
    ensures d.skills == v.skills && d.message == message
  {
    AssignmentDraft(v.id, v.name, v.email, v.skills, message)
  }

  /** `handleAssignVolunteer`: look the selected id up among all volunteers;
      if nobody has it, both lists stay as they are; otherwise assign the
      first volunteer with that id, snapshotting their name, e-mail and
      skills. */
  function HandleAssignVolunteer(
    rs: seq<HelpRequest>, vs: seq<Volunteer>, requestId: string, selectedId: string, message: string,
    freshId: string)
    : (r: (seq<HelpRequest>, seq<Volunteer>))
    ensures (forall k :: 0 <= k < |vs| ==> vs[k].id != selectedId) ==> r == (rs, vs)
    ensures (exists k :: 0 <= k < |vs| && vs[k].id == selectedId) ==>
      exists k :: 0 <= k < |vs| && vs[k].id == selectedId && (forall m :: 0 <= m < k ==> vs[m].id != selectedId) &&
        r == AddVolunteerToRequest(rs, vs, requestId, DraftFor(vs[k], message), freshId)
  {
    match FindVolunteer(vs, selectedId)
    case None => (rs, vs)
    case Some(v) => AddVolunteerToRequest(rs, vs, requestId, DraftFor(v, message), freshId)
  }

  /** With unique ids, `handleAssignVolunteer` changes exactly one request
      and one volunteer: request `i` gains one pending assignment that
      snapshots volunteer `k`, and volunteer `k` lists the request and is
      busy. */
  lemma AssignUniqueIds(
    rs: seq<HelpRequest>, vs: seq<Volunteer>, i: nat, k: nat, message: string, freshId: string)
    requires i < |rs| && forall i' :: 0 <= i' < |rs| && i' != i ==> rs[i'].id != rs[i].id
    requires k < |vs| && forall k' :: 0 <= k' < |vs| && k' != k ==> vs[k'].id != vs[k].id
    ensures var r := HandleAssignVolunteer(rs, vs, rs[i].id, vs[k].id, message, freshId);
      && |r.0| == |rs| && |r.1| == |vs|
      && r.0[i] == rs[i].(volunteers := rs[i].volunteers + [
           VolunteerAssignment(freshId, vs[k].id, vs[k].name, vs[k].email, vs[k].skills,
             AssignmentStatus.Pending, JustNow, message)])
      && r.1[k] == vs[k].(assignedRequests := vs[k].assignedRequests + [rs[i].id], status := Busy)
      && (forall i' :: 0 <= i' < |rs| && i' != i ==> r.0[i'] == rs[i'])
      && (forall k' :: 0 <= k' < |vs| && k' != k ==> r.1[k'] == vs[k'])
  {
    var found := FindVolunteer(vs, vs[k].id);
    assert found == Some(vs[k]);
    var r := HandleAssignVolunteer(rs, vs, rs[i].id, vs[k].id, message, freshId);
    assert r == AddVolunteerToRequest(rs, vs, rs[i].id, DraftFor(vs[k], message), freshId);
    assert r.0[i].volunteers == rs[i].volunteers + [NewAssignment(DraftFor(vs[k], message), freshId)];
  }

  /** Every assignment points at volunteers who list the request: for each
      request, each of its assignments and each volunteer whose id the
      assignment names, the volunteer's `assignedRequests` holds the
      request's id. The seed data has this shape. */
  ghost predicate Linked(rs: seq<HelpRequest>, vs: seq<Volunteer>)
  {
    forall i, j, k ::
      0 <= i < |rs| && 0 <= j < |rs[i].volunteers| && 0 <= k < |vs| &&
      vs[k].id == rs[i].volunteers[j].volunteerId
      ==> rs[i].id in vs[k].assignedRequests
  }

  /** `rs2` keeps the id of every request of `rs` and the volunteer id of
      every assignment. */
  ghost predicate SameLinks(rs: seq<HelpRequest>, rs2: seq<HelpRequest>)
  {
    |rs2| == |rs| &&
    forall i :: 0 <= i < |rs| ==>
      rs2[i].id == rs[i].id && |rs2[i].volunteers| == |rs[i].volunteers| &&
      forall j :: 0 <= j < |rs[i].volunteers| ==>
        rs2[i].volunteers[j].volunteerId == rs[i].volunteers[j].volunteerId
  }

  lemma SameLinksKeepsLinked(rs: seq<HelpRequest>, rs2: seq<HelpRequest>, vs: seq<Volunteer>)
    requires Linked(rs, vs) && SameLinks(rs, rs2)
    ensures Linked(rs2, vs)
  {
    forall i, j, k |
      0 <= i < |rs2| && 0 <= j < |rs2[i].volunteers| && 0 <= k < |vs| &&
      vs[k].id == rs2[i].volunteers[j].volunteerId
      ensures rs2[i].id in vs[k].assignedRequests
    {
      assert rs[i].volunteers[j].volunteerId == rs2[i].volunteers[j].volunteerId;
    }
  }

  /** Assigning keeps the links: the new assignment's volunteers now list
      the request, and no existing link is lost. */
  lemma AssignKeepsLinked(
    rs: seq<HelpRequest>, vs: seq<Volunteer>, requestId: string, draft: AssignmentDraft, freshId: string)
    requires Linked(rs, vs)
    ensures var r := AddVolunteerToRequest(rs, vs, requestId, draft, freshId); Linked(r.0, r.1)
  {
    var rs2 := AddAssignment(rs, requestId, draft, freshId);
    var vs2 := MarkAssigned(vs, draft.volunteerId, requestId);
    forall i, j, k |
      0 <= i < |rs2| && 0 <= j < |rs2[i].volunteers| && 0 <= k < |vs2| &&
      vs2[k].id == rs2[i].volunteers[j].volunteerId
      ensures rs2[i].id in vs2[k].assignedRequests
    {
      assert vs2[k].id == vs[k].id;
      assert rs2[i].id == rs[i].id;
      assert vs[k].assignedRequests <= vs2[k].assignedRequests;
      if j < |rs[i].volunteers| {
        assert rs2[i].volunteers[j] == rs[i].volunteers[j];
        assert rs[i].id in vs[k].assignedRequests;
      } else {
        assert rs[i].id == requestId;
        assert rs2[i].volunteers[j].volunteerId == draft.volunteerId;
        assert vs2[k].assignedRequests == vs[k].assignedRequests + [requestId];
      }
    }
  }

  /** Setting a request status leaves the links alone. */
  lemma StatusKeepsLinked(rs: seq<HelpRequest>, vs: seq<Volunteer>, requestId: string, status: RequestStatus)
    requires Linked(rs, vs)
    ensures Linked(SetStatus(rs, requestId, status), vs)
  {
    SameLinksKeepsLinked(rs, SetStatus(rs, requestId, status), vs);
  }

  /** Adding an offer or a comment leaves the links alone. */
  lemma ThreadsKeepLinked(
    rs: seq<HelpRequest>, vs: seq<Volunteer>, requestId: string, offer: OfferDraft, comment: CommentDraft,
    freshId: string)
    requires Linked(rs, vs)
    ensures Linked(AddOffer(rs, requestId, offer, freshId), vs)
    ensures Linked(AddComment(rs, requestId, comment, freshId), vs)
  {
    SameLinksKeepsLinked(rs, AddOffer(rs, requestId, offer, freshId), vs);
    SameLinksKeepsLinked(rs, AddComment(rs, requestId, comment, freshId), vs);
  }

  /** Changing assignment statuses leaves the links alone. */
  lemma AssignmentStatusKeepsLinked(
    rs: seq<HelpRequest>, vs: seq<Volunteer>, requestId: string, volunteerId: string, newStatus: AssignmentStatus)
    requires Linked(rs, vs)
    ensures Linked(UpdateVolunteerStatus(rs, requestId, volunteerId, newStatus), vs)
  {
    var u := UpdateVolunteerStatus(rs, requestId, volunteerId, newStatus);
    forall i | 0 <= i < |rs|
      ensures u[i].id == rs[i].id && |u[i].volunteers| == |rs[i].volunteers|
      ensures forall j :: 0 <= j < |rs[i].volunteers| ==>
        u[i].volunteers[j].volunteerId == rs[i].volunteers[j].volunteerId
    {
    }
    assert SameLinks(rs, u);
    SameLinksKeepsLinked(rs, u, vs);
  }

  /** A new request has no assignments, so submitting keeps the links; a
      new volunteer keeps them as long as no assignment already names the
      fresh id. */
  lemma NewRecordsKeepLinked(
    user: Option<User>, rs: seq<HelpRequest>, vs: seq<Volunteer>, form: RequestDraft, draft: VolunteerDraft,
    freshId: string)
    requires Linked(rs, vs)
    ensures Linked(SubmitRequest(user, rs, form, freshId), vs)
    ensures (forall i, j :: 0 <= i < |rs| && 0 <= j < |rs[i].volunteers| ==> rs[i].volunteers[j].volunteerId != freshId)
      ==> Linked(rs, AddVolunteer(vs, draft, freshId))
  {
    var rs2 := SubmitRequest(user, rs, form, freshId);
    if user.Some? {
      forall i, j, k |
        0 <= i < |rs2| && 0 <= j < |rs2[i].volunteers| && 0 <= k < |vs| &&
        vs[k].id == rs2[i].volunteers[j].volunteerId
        ensures rs2[i].id in vs[k].assignedRequests
      {
        assert i != 0;
        assert rs2[i] == rs[i - 1];
      }
    }
    if forall i, j :: 0 <= i < |rs| && 0 <= j < |rs[i].volunteers| ==> rs[i].volunteers[j].volunteerId != freshId {
      var vs2 := AddVolunteer(vs, draft, freshId);
      forall i, j, k |
        0 <= i < |rs| && 0 <= j < |rs[i].volunteers| && 0 <= k < |vs2| &&
        vs2[k].id == rs[i].volunteers[j].volunteerId
        ensures rs[i].id in vs2[k].assignedRequests
      {
        assert k != 0;
        assert vs2[k] == vs[k - 1];
      }
    }
  }

  /** Only `addVolunteerToRequest` changes a volunteer's status, and only to
      busy: none of the transitions makes a volunteer available again. */
  lemma AssignedVolunteerStaysBusy(
    vs: seq<Volunteer>, volunteerId: string, requestId: string, volunteerId2: string, requestId2: string)
    ensures forall k :: 0 <= k < |vs| && vs[k].id == volunteerId ==>
      MarkAssigned(MarkAssigned(vs, volunteerId, requestId), volunteerId2, requestId2)[k].status == Busy
  {
    var once := MarkAssigned(vs, volunteerId, requestId);
    assert forall k :: 0 <= k < |vs| && vs[k].id == volunteerId ==> once[k].status == Busy && once[k].id == vs[k].id;
  }
}
