/** The records of the help-request board (app/page.tsx, the interfaces at
    the top of the file) and the partial records the handlers receive.
    Closed unions of string literals become enumerations; JavaScript's
    `number` fields become `int` (task counters) and `real` (the rating,
    which nothing computes with). Constructor names that two enumerations
    share (`Pending`, `Completed`, `Volunteer`) are written qualified. */
module Domain {

  datatype Option<T> = None | Some(value: T)

  /** A persisted blob as the loader sees it: no entry (or an empty one),
      an entry that does not parse, or the value it parses to. */
  datatype Stored<T> = Absent | Malformed | Parsed(value: T)

  datatype Role = Admin | Volunteer | Requester | Visitor

  datatype Urgency = Low | Medium | High | Critical

  datatype RequestStatus = Pending | Approved | Rejected | Completed

  datatype AssignmentStatus = Pending | Accepted | Active | Completed

  datatype VolunteerStatus = Available | Busy | Inactive

  datatype User = User(
    id: string,
    name: string,
    email: string,
    role: Role,
    phone: Option<string>,
    joinDate: string)

  datatype HelpOffer = HelpOffer(
    id: string,
    author: string,
    message: string,
    timestamp: string,
    contact: string)

  datatype Comment = Comment(
    id: string,
    author: string,
    message: string,
    timestamp: string)

  datatype VolunteerAssignment = VolunteerAssignment(
    id: string,
    volunteerId: string,
    volunteerName: string,
    volunteerContact: string,
    skills: seq<string>,
    status: AssignmentStatus,
    assignedDate: string,
    message: string)

  datatype HelpRequest = HelpRequest(
    id: string,
    title: string,
    description: string,
    location: string,
    category: string,
    urgency: Urgency,
    timestamp: string,
    author: string,
    authorId: string,
    offers: seq<HelpOffer>,
    comments: seq<Comment>,
    volunteers: seq<VolunteerAssignment>,
    status: RequestStatus,
    isPrivate: bool)

  datatype Volunteer = Volunteer(
    id: string,
    name: string,
    email: string,
    phone: string,
    skills: seq<string>,
    availability: string,
    experience: string,
    status: VolunteerStatus,
    assignedRequests: seq<string>,
    completedTasks: int,
    rating: real,
    joinDate: string)

  /** `Omit<HelpOffer, "id" | "timestamp">` */
  datatype OfferDraft = OfferDraft(author: string, message: string, contact: string)

  /** `Omit<Comment, "id" | "timestamp">` */
  datatype CommentDraft = CommentDraft(author: string, message: string)

  /** `Omit<VolunteerAssignment, "id" | "assignedDate" | "status">` */
  datatype AssignmentDraft = AssignmentDraft(
    volunteerId: string,
    volunteerName: string,
    volunteerContact: string,
    skills: seq<string>,
    message: string)

  /** `Omit<Volunteer, "id" | "joinDate" | "assignedRequests" | "completedTasks" | "rating">` */
  datatype VolunteerDraft = VolunteerDraft(
    name: string,
    email: string,
    phone: string,
    skills: seq<string>,
    availability: string,
    experience: string,
    status: VolunteerStatus)

  /** The state of the request form (`newRequest`). */
  datatype RequestDraft = RequestDraft(
    title: string,
    description: string,
    location: string,
    category: string,
    urgency: Urgency,
    isPrivate: bool)

  /** The display timestamp every new offer, comment, assignment, request
      and volunteer receives. */
  const JustNow: string := "Just now"
}
