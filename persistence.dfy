/** What the page does with its stored state when it starts
    (app/page.tsx:470-507): the request list is normalised field by field,
    the volunteer list and the user are taken as parsed, and a list that is
    missing or does not parse falls back to the seed data. Reading the
    store and `JSON.parse` are outside the model: each stored entry arrives
    as a `Stored` value saying what parsing produced. */
module Persistence {
  import opened Domain
  import opened Seqs
  import opened Seed
  import Transitions

  /** A request as it comes out of `JSON.parse`: the fields the loader
      repairs may be missing (`None`). */
  datatype RawRequest = RawRequest(
    id: string,
    title: string,
    description: string,
    location: string,
    category: string,
    urgency: Urgency,
    timestamp: string,
    author: string,
    authorId: Option<string>,
    offers: Option<seq<HelpOffer>>,
    comments: Option<seq<Comment>>,
    volunteers: Option<seq<VolunteerAssignment>>,
    status: Option<RequestStatus>,
    isPrivate: Option<bool>)

  /** The author id the loader substitutes for a missing or empty one. */
  const UnknownAuthor: string := "unknown"

  /** The `x || default` of JavaScript on a string: the empty string is
      falsy, so it is replaced too. */
  function OrString(x: Option<string>, default: string): (r: string)
    ensures r == default <==> x.None? || x.value == "" || x.value == default
    ensures r != default ==> x == Some(r)
  {
    match x
    case Some(s) => if s == "" then default else s
    case None => default
  }

  /** The normalisation map: missing lists become empty, a missing status
      becomes approved, a missing privacy flag becomes false and a missing
      or empty author id becomes "unknown"; every other field is kept. */
  function Normalise(raw: RawRequest): (r: HelpRequest)
    ensures r.id == raw.id && r.title == raw.title && r.description == raw.description
    ensures r.location == raw.location && r.category == raw.category && r.urgency == raw.urgency
    ensures r.timestamp == raw.timestamp && r.author == raw.author
    ensures raw.volunteers.None? ==> r.volunteers == []
    ensures raw.offers.None? ==> r.offers == []
    ensures raw.comments.None? ==> r.comments == []
    ensures raw.status.None? ==> r.status == RequestStatus.Approved
    ensures raw.isPrivate.None? ==> !r.isPrivate
    ensures raw.authorId.None? ==> r.authorId == UnknownAuthor
    ensures raw.authorId == Some("") ==> r.authorId == UnknownAuthor
    ensures raw.authorId.Some? && raw.authorId.value != "" ==> r.authorId == raw.authorId.value
    ensures raw.volunteers.Some? ==> r.volunteers == raw.volunteers.value
    ensures raw.offers.Some? ==> r.offers == raw.offers.value
    ensures raw.comments.Some? ==> r.comments == raw.comments.value
    ensures raw.status.Some? ==> r.status == raw.status.value
    ensures raw.isPrivate.Some? ==> r.isPrivate == raw.isPrivate.value
  {
    HelpRequest(
      raw.id, raw.title, raw.description, raw.location, raw.category, raw.urgency, raw.timestamp,
      raw.author,
      OrString(raw.authorId, UnknownAuthor),
      match raw.offers case Some(o) => o case None => [],
      match raw.comments case Some(c) => c case None => [],
      match raw.volunteers case Some(v) => v case None => [],
      match raw.status case Some(s) => s case None => RequestStatus.Approved,
      match raw.isPrivate case Some(p) => p case None => false)
  }

  /** The shape `JSON.stringify` gives a request: every field present. */
  function Serialised(r: HelpRequest): RawRequest
  {
    RawRequest(
      r.id, r.title, r.description, r.location, r.category, r.urgency, r.timestamp, r.author,
      Some(r.authorId), Some(r.offers), Some(r.comments), Some(r.volunteers), Some(r.status), Some(r.isPrivate))
  }

  /** A stored request comes back unchanged, except that an empty author id
      comes back as "unknown". */
  lemma NormaliseRoundTrip(r: HelpRequest)
    ensures r.authorId != "" ==> Normalise(Serialised(r)) == r
    ensures r.authorId == "" ==> Normalise(Serialised(r)) == r.(authorId := UnknownAuthor)
  {
  }

  /** `parsedRequests.map(...)`: every parsed request normalised, in order. */
  function NormaliseAll(raws: seq<RawRequest>): (r: seq<HelpRequest>)
    ensures |r| == |raws|
    ensures forall i :: 0 <= i < |r| ==> r[i] == Normalise(raws[i])
  {
    MapSeq(raws, Normalise)
  }

  /** The request list after start-up. */
  function LoadRequests(blob: Domain.Stored<seq<RawRequest>>): (r: seq<HelpRequest>)
    ensures !blob.Parsed? ==> r == DefaultRequests()
    ensures blob.Parsed? ==> r == NormaliseAll(blob.value)
  {
    match blob
    case Parsed(raws) => NormaliseAll(raws)
    case _ => DefaultRequests()
  }

  /** Saving a list whose author ids are all non-empty and loading it again
      gives the same list. */
  lemma {:induction false} NormaliseAllRoundTrip(rs: seq<HelpRequest>)
    requires forall i :: 0 <= i < |rs| ==> rs[i].authorId != ""
    ensures NormaliseAll(MapSeq(rs, Serialised)) == rs
  {
    var loaded := NormaliseAll(MapSeq(rs, Serialised));
    forall i | 0 <= i < |rs|
      ensures loaded[i] == rs[i]
    {
      NormaliseRoundTrip(rs[i]);
    }
  }

  /** A missing or malformed request list yields the three examples, with
      ids "1", "2" and "3". */
  lemma SeedFallback(blob: Domain.Stored<seq<RawRequest>>)
    requires !blob.Parsed?
    ensures var r := LoadRequests(blob);
      |r| == 3 && r[0].id == "1" && r[1].id == "2" && r[2].id == "3"
  {
  }

  /** The example assignments are linked to the example volunteers. */
  lemma SeedLinked()
    ensures Transitions.Linked(DefaultRequests(), DefaultVolunteers())
  {
    assert ShelterRequest().volunteers[0].volunteerId == "vol1";
    assert MedicalRequest().volunteers[0].volunteerId == "vol2";
    assert FoodRequest().volunteers[0].volunteerId == "vol3";
  }

  /** The volunteer list after start-up: as parsed, or the five examples. */
  function LoadVolunteers(blob: Domain.Stored<seq<Volunteer>>): (r: seq<Volunteer>)
    ensures blob.Parsed? ==> r == blob.value
    ensures !blob.Parsed? ==> r == DefaultVolunteers()
  {
    match blob
    case Parsed(vs) => vs
    case _ => DefaultVolunteers()
  }

  /** The signed-in user after start-up: a user entry that is missing or
      does not parse leaves the current user (initially nobody) in place. */
  function LoadUser(blob: Domain.Stored<Option<User>>, current: Option<User>): (r: Option<User>)
    ensures blob.Parsed? ==> r == blob.value
    ensures !blob.Parsed? ==> r == current
  {
    match blob
    case Parsed(u) => u
    case _ => current
  }
}
