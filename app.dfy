/** The page component's three state cells (`currentUser`, `helpRequests`
    and `volunteers`, app/page.tsx:126 and 145-146) and the handlers that
    replace them. Each handler assigns the result of the pure transition
    that describes it; `Date.now()` and `new Date().toISOString()` arrive
    as the `freshId` and `now` parameters. */
module App {
  import opened Domain
  import opened Text
  import Transitions
  import Persistence

  class DisasterRecoveryPage {
    var currentUser: Option<User>
    var helpRequests: seq<HelpRequest>
    var volunteers: seq<Volunteer>

    /** The state before the start-up effect has run. */
    constructor ()
      ensures currentUser == None && helpRequests == [] && volunteers == []
    {
      currentUser := None;
      helpRequests := [];
      volunteers := [];
    }

    /** The start-up effect: restore the user, the requests (normalised) and
        the volunteers, each falling back independently. */
    method Load(
      userBlob: Stored<Option<User>>, requestsBlob: Stored<seq<Persistence.RawRequest>>,
      volunteersBlob: Stored<seq<Volunteer>>)
      modifies this
      ensures currentUser == Persistence.LoadUser(userBlob, old(currentUser))
      ensures helpRequests == Persistence.LoadRequests(requestsBlob)
      ensures volunteers == Persistence.LoadVolunteers(volunteersBlob)
    {
      currentUser := Persistence.LoadUser(userBlob, currentUser);
      helpRequests := Persistence.LoadRequests(requestsBlob);
      volunteers := Persistence.LoadVolunteers(volunteersBlob);
    }

    /** `handleLogin`: a user is made up from the form; the name is the part
        of the e-mail address before the first '@', and there is no phone. */
    method HandleLogin(email: string, role: Role, freshId: string, now: string)
      modifies this`currentUser
      ensures currentUser.Some?
      ensures currentUser.value.id == freshId && currentUser.value.email == email
      ensures currentUser.value.name == LocalPart(email) && currentUser.value.role == role
      ensures currentUser.value.phone == None && currentUser.value.joinDate == now
    {
      currentUser := Some(User(freshId, LocalPart(email), email, role, None, now));
    }

    /** `handleRegister`: as login, with the name and phone from the form. */
    method HandleRegister(name: string, email: string, role: Role, phone: string, freshId: string, now: string)
      modifies this`currentUser
      ensures currentUser == Some(User(freshId, name, email, role, Some(phone), now))
    {
      currentUser := Some(User(freshId, name, email, role, Some(phone), now));
    }

    /** `handleLogout` */
    method HandleLogout()
      modifies this`currentUser
      ensures currentUser == None
    {
      currentUser := None;
    }

    /** `handleSubmitRequest` */
    method HandleSubmitRequest(form: RequestDraft, freshId: string)
      modifies this`helpRequests
      ensures helpRequests == Transitions.SubmitRequest(currentUser, old(helpRequests), form, freshId)
      ensures currentUser.None? ==> helpRequests == old(helpRequests)
      ensures currentUser.Some? ==>
        helpRequests[1..] == old(helpRequests) && helpRequests[0].status == RequestStatus.Pending &&
        helpRequests[0].authorId == currentUser.value.id
    {
      helpRequests := Transitions.SubmitRequest(currentUser, helpRequests, form, freshId);
    }

    /** `approveRequest` */
    method ApproveRequest(requestId: string)
      modifies this`helpRequests
      ensures helpRequests == Transitions.ApproveRequest(old(helpRequests), requestId)
    {
      helpRequests := Transitions.ApproveRequest(helpRequests, requestId);
    }

    /** `rejectRequest` */
    method RejectRequest(requestId: string)
      modifies this`helpRequests
      ensures helpRequests == Transitions.RejectRequest(old(helpRequests), requestId)
    {
      helpRequests := Transitions.RejectRequest(helpRequests, requestId);
    }

    /** `addOffer` */
    method AddOffer(requestId: string, offer: OfferDraft, freshId: string)
      modifies this`helpRequests
      ensures helpRequests == Transitions.AddOffer(old(helpRequests), requestId, offer, freshId)
    {
      helpRequests := Transitions.AddOffer(helpRequests, requestId, offer, freshId);
    }

    /** `addComment` */
    method AddComment(requestId: string, comment: CommentDraft, freshId: string)
      modifies this`helpRequests
      ensures helpRequests == Transitions.AddComment(old(helpRequests), requestId, comment, freshId)
    {
      helpRequests := Transitions.AddComment(helpRequests, requestId, comment, freshId);
    }

    /** `handleSubmitOffer`, through `onAddOffer`: signed with the current
        user's name, and nothing without a user. */
    method HandleSubmitOffer(requestId: string, form: OfferDraft, freshId: string)
      modifies this`helpRequests
      ensures helpRequests == Transitions.SubmitOffer(currentUser, old(helpRequests), requestId, form, freshId)
    {
      helpRequests := Transitions.SubmitOffer(currentUser, helpRequests, requestId, form, freshId);
    }

    /** `handleSubmitComment`, through `onAddComment`. */
    method HandleSubmitComment(requestId: string, form: CommentDraft, freshId: string)
      modifies this`helpRequests
      ensures helpRequests == Transitions.SubmitComment(currentUser, old(helpRequests), requestId, form, freshId)
    {
      helpRequests := Transitions.SubmitComment(currentUser, helpRequests, requestId, form, freshId);
    }

    /** `addVolunteerToRequest`: both cells are replaced in one handler,
        which keeps every existing assignment linked. */
    method AddVolunteerToRequest(requestId: string, draft: AssignmentDraft, freshId: string)
      modifies this`helpRequests, this`volunteers
      ensures helpRequests == Transitions.AddAssignment(old(helpRequests), requestId, draft, freshId)
      ensures volunteers == Transitions.MarkAssigned(old(volunteers), draft.volunteerId, requestId)
      ensures Transitions.Linked(old(helpRequests), old(volunteers)) ==> Transitions.Linked(helpRequests, volunteers)
    {
      if Transitions.Linked(helpRequests, volunteers) {
        Transitions.AssignKeepsLinked(helpRequests, volunteers, requestId, draft, freshId);
      }
      var next := Transitions.AddVolunteerToRequest(helpRequests, volunteers, requestId, draft, freshId);
      helpRequests := next.0;
      volunteers := next.1;
    }

    /** `handleAssignVolunteer` of a request card: nothing changes unless a
        volunteer with the selected id exists. */
    method HandleAssignVolunteer(requestId: string, selectedId: string, message: string, freshId: string)
      modifies this`helpRequests, this`volunteers
      ensures (helpRequests, volunteers) ==
        Transitions.HandleAssignVolunteer(old(helpRequests), old(volunteers), requestId, selectedId, message, freshId)
      ensures (forall k :: 0 <= k < |old(volunteers)| ==> old(volunteers)[k].id != selectedId) ==>
        helpRequests == old(helpRequests) && volunteers == old(volunteers)
    {
      var next := Transitions.HandleAssignVolunteer(helpRequests, volunteers, requestId, selectedId, message, freshId);
      helpRequests := next.0;
      volunteers := next.1;
    }

    /** `updateVolunteerStatus` */
    method UpdateVolunteerStatus(requestId: string, volunteerId: string, newStatus: AssignmentStatus)
      modifies this`helpRequests
      ensures helpRequests == Transitions.UpdateVolunteerStatus(old(helpRequests), requestId, volunteerId, newStatus)
    {
      helpRequests := Transitions.UpdateVolunteerStatus(helpRequests, requestId, volunteerId, newStatus);
    }

    /** `addVolunteer` */
    method AddVolunteer(draft: VolunteerDraft, freshId: string)
      modifies this`volunteers
      ensures volunteers == Transitions.AddVolunteer(old(volunteers), draft, freshId)
    {
      volunteers := Transitions.AddVolunteer(volunteers, draft, freshId);
    }
  }
}
