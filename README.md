# Disaster recovery help board — a Dafny model of its domain core

The page `app/page.tsx` runs a single-user help-request board for disaster
recovery. Requesters post help requests, and an admin approves or rejects
them. Signed-in users attach offers and comments. An admin assigns
registered volunteers to requests. An assignment starts as pending, and its
"Accept" and "Mark Complete" buttons set it to active or completed; the
accepted status is declared but no code path writes it. Around this
sits a great deal of presentation code. This project models the domain core
under that presentation code:

- the records the page works on;
- the role-based visibility rule and the search of the request board;
- who may act on a request, and when the "Assign Volunteer" action is drawn;
- every handler that replaces the request list, the volunteer list or the
  signed-in user;
- the volunteer directory search and the skill picker;
- the start-up normalisation of stored requests and the fallback to the
  example data.

## Layout

| file | module | contents |
|---|---|---|
| `seqs.dfy` | `Seqs` | `MapSeq` and `Filter`, standing for `Array.prototype.map` and `filter`, each pinned down by its contract; order-preserving subsequences |
| `text.dfy` | `Text` | ASCII `toLowerCase`, `includes`, and the `split("@")[0]` used at login |
| `domain.dfy` | `Domain` | the records `User`, `HelpRequest`, `HelpOffer`, `Comment`, `VolunteerAssignment` and `Volunteer`, in the source's field order; closed enums for role, urgency and the three statuses; the handlers' argument records (`OfferDraft`, …) |
| `visibility.dfy` | `Visibility` | `filteredRequests`, `canInteract` and the assign-button guard |
| `transitions.dfy` | `Transitions` | the list transformations, as pure functions from old lists to new, and the `Linked` invariant between the two lists |
| `directory.dfy` | `Directory` | `filteredVolunteers` and `toggleSkill` |
| `seed.dfy` | `Seed` | the three example requests and five example volunteers |
| `persistence.dfy` | `Persistence` | the normalisation map and the start-up fallbacks |
| `app.dfy` | `App` | class `DisasterRecoveryPage` with the three state cells `currentUser`, `helpRequests` and `volunteers`; each handler method assigns the result of the matching pure transition |

The model follows the code as written:

- `approveRequest` and `rejectRequest` do not check that the request is
  pending.
- Each transition updates every element whose id matches, as `map` does.
  Ids come from `Date.now()`, so they can collide.
- `addVolunteerToRequest` appends the assignment on the request side even
  when no volunteer has the id. Only `handleAssignVolunteer` guards against
  that case.

`Date.now()` and `new Date().toISOString()` are the `freshId` and `now`
parameters.

A signed-in user whose role is "visitor" falls through every branch of the
role test in `filteredRequests` (app/page.tsx:238-249). That user therefore
sees every request, as an admin does. The comment at app/page.tsx:239 calls
the viewer without a user a visitor, who sees only public, approved
requests; a signed-in user with the visitor role is not treated that way,
and the model follows the code.
For the same reason, a signed-in visitor sees requests they may not act on
(`Visibility.ViewableIsInteractable` excludes that role).

## Model

| member | source | states |
|---|---|---|
| Visibility.CanView | app/page.tsx:238-249 | the role test of the board: a public, approved request is visible to everyone, and any other request only to a signed-in user (its author if a requester, an assigned volunteer, an admin, or a signed-in visitor) |
| Visibility.FilterRequests | app/page.tsx:236-257 | the board is an order-preserving subsequence of the request list that keeps each request's multiplicity; a request is on it exactly when its viewer may see it, the lowered search term occurs in its lowered title, description or location, and the category is "all" or its own |
| Visibility.AnonymousView | app/page.tsx:238-240 | without a user, a request is visible exactly when it is not private and is approved |
| Visibility.RequesterView | app/page.tsx:241-243 | a requester always sees their own requests, whatever their status or privacy; any other request they see exactly when an anonymous viewer does |
| Visibility.VolunteerView | app/page.tsx:244-247 | a volunteer always sees a request one of whose assignments names them; any other request they see exactly when an anonymous viewer does |
| Visibility.UnrestrictedView | app/page.tsx:248 | an admin sees every request, and so does a signed-in visitor, who takes no branch of the role test |
| Visibility.MatchesSearchIff | app/page.tsx:251-254 | the search matches exactly when the lowered term occurs at some position of the lowered title, description or location |
| Visibility.AdminSeesWholeBoard | app/page.tsx:236-257 | for an admin, the empty search in category "all" leaves the request list unchanged |
| Visibility.CanInteract | app/page.tsx:1509-1514 | `canInteract`: only a signed-in user may interact, and every signed-in user may interact with an approved request |
| Visibility.InteractRules | app/page.tsx:1509-1514 | nobody may interact without signing in; a signed-in user may interact with a request exactly when they are an admin, the request is approved, they wrote it, or they are assigned to it |
| Visibility.ViewableIsInteractable | app/page.tsx:1509-1514 | an admin, requester or volunteer may interact with every request the board shows them |
| Visibility.AvailableVolunteers | app/page.tsx:1507 | the available volunteers are volunteers from the list whose status is available, and every such volunteer is among them |
| Visibility.ShowAssignAction | app/page.tsx:1718 | the assign action is drawn only inside the interaction block and only when the volunteer list is non-empty |
| Visibility.ShowAssignActionIff | app/page.tsx:1718 | the assign action is drawn exactly for a signed-in admin when some volunteer is available; the request plays no part |
| Text.Lower | app/page.tsx:252-254 | lowering keeps the length and lowers each ASCII capital, leaving every other character alone |
| Text.Includes | app/page.tsx:252-254 | `includes`: the empty needle is in every string, and a needle longer than the string is in none |
| Text.IncludesIff | app/page.tsx:252-254 | `includes` holds exactly when the needle occurs at some index of the string |
| Text.LocalPart | app/page.tsx:264 | the login name is a prefix of the e-mail address without '@', and it stops only at an '@' or at the end |
| Transitions.SubmitRequest | app/page.tsx:315-335 | without a user the list is unchanged; otherwise exactly one request goes in front of the old list, carrying the form's fields, the fresh id, "Just now", the user's name and id, empty offers, comments and assignments, and status pending |
| Transitions.SetStatus | app/page.tsx:347-353 | same length; each request with the id gets the given status with every other field kept; any other request is unchanged |
| Transitions.ApproveRequest | app/page.tsx:347-349 | same length; each request with the id is approved, whatever its earlier status, with every other field kept; any other request is unchanged |
| Transitions.RejectRequest | app/page.tsx:351-353 | as approve, with status rejected |
| Transitions.StatusUnknownIdIsIdentity | app/page.tsx:347-353 | an id that no request carries leaves the list identical under approve and reject |
| Transitions.StatusLastWriteWins | app/page.tsx:347-353 | two status changes of the same id leave only the second; approving twice is approving once |
| Transitions.AddOffer | app/page.tsx:355-373 | same length; each matching request gains exactly one offer, at the end, with the fresh id and "Just now"; its earlier offers and other fields are kept; any other request is unchanged |
| Transitions.AddOfferTwice | app/page.tsx:355-373 | two offers in a row end up after the earlier offers, in the order they were made |
| Transitions.AddComment | app/page.tsx:375-393 | as `AddOffer`, for comments |
| Transitions.OfferCommentCommute | app/page.tsx:355-393 | adding an offer and adding a comment give the same list in either order |
| Transitions.SubmitOffer | app/page.tsx:1516-1525 | without a user nothing changes; otherwise each matching request gains one offer signed with the user's name, whatever author the form held, and keeps every other field; any other request is unchanged |
| Transitions.SubmitComment | app/page.tsx:1527-1536 | as `SubmitOffer`, for a comment |
| Transitions.NewAssignment | app/page.tsx:406-411 | the new assignment carries the draft's volunteer id, name, contact, skills and message, the fresh id, "Just now" and status pending |
| Transitions.AddAssignment | app/page.tsx:399-416 | same length; each matching request gains one pending assignment at the end of its assignments, and nothing else about it changes; any other request is unchanged |
| Transitions.MarkAssigned | app/page.tsx:418-429 | same length; each volunteer with the draft's volunteer id gets the request id appended to its assigned requests and becomes busy, with every other field kept; all other volunteers are unchanged |
| Transitions.AddVolunteerToRequest | app/page.tsx:395-430 | both lists change in one step: the request side as `AddAssignment` and the volunteer side as `MarkAssigned`, each even when the other side has no match |
| Transitions.AssignKeepsLinked | app/page.tsx:395-430 | if every assignment's volunteers list its request, they still do after an assignment |
| Transitions.AssignedVolunteerStaysBusy | app/page.tsx:418-429 | a volunteer who was assigned stays busy through any further assignment |
| Transitions.UpdateVolunteerStatus | app/page.tsx:432-445 | same length; in each matching request every assignment of the volunteer gets the new status and nothing else changes; the number and order of its assignments and its other fields are kept; any other request is unchanged |
| Transitions.AssignmentStatusKeepsLinked | app/page.tsx:432-445 | changing assignment statuses keeps every assignment linked |
| Transitions.StatusKeepsLinked | app/page.tsx:347-353 | approving or rejecting keeps every assignment linked |
| Transitions.ThreadsKeepLinked | app/page.tsx:355-393 | adding an offer or a comment keeps every assignment linked |
| Transitions.AddVolunteer | app/page.tsx:447-459 | exactly one volunteer goes in front of the old list, with the draft's fields, the fresh id, "Just now", no assigned requests, no completed tasks and rating 5 |
| Transitions.NewRecordsKeepLinked | app/page.tsx:315-459 | a submitted request keeps every assignment linked; so does a new volunteer, unless some assignment already names the fresh id |
| Transitions.FindVolunteer | app/page.tsx:1540 | no result exactly when no volunteer has the id; otherwise the first volunteer with the id |
| Transitions.DraftFor | app/page.tsx:1542-1548 | the draft names the selected volunteer by id, and snapshots their name, e-mail and skills along with the form's message |
| Transitions.HandleAssignVolunteer | app/page.tsx:1538-1552 | when no volunteer has the selected id, both lists stay as they were; otherwise the first volunteer with that id is assigned to the request |
| Transitions.AssignUniqueIds | app/page.tsx:1538-1552 | with unique ids, exactly one request gains the pending assignment snapshotting the selected volunteer, and exactly that volunteer lists the request and becomes busy |
| Directory.FilterVolunteers | app/page.tsx:741-748 | the directory is an order-preserving subsequence of the volunteer list that keeps multiplicities; a volunteer is listed exactly when the lowered term occurs in their lowered name, some lowered skill or their lowered experience, and the skill filter is "all" or one of their skills |
| Directory.EmptySearchListsAll | app/page.tsx:741-748 | the empty search with the skill filter "all" lists every volunteer |
| Directory.ToggleSkill | app/page.tsx:2321-2326 | the picked skill's membership flips and no other skill's does; removing keeps the order and shortens the list; adding appends the skill after the old list |
| Directory.ToggleTwice | app/page.tsx:2321-2326 | picking an unlisted skill twice restores the list |
| Persistence.OrString | app/page.tsx:493 | `x \|\| "unknown"`: the default replaces a missing value and also an empty string; any other value is kept |
| Persistence.Normalise | app/page.tsx:486-494 | every field that is present is kept, except an empty author id; missing assignments, offers and comments become empty, a missing status becomes approved, a missing privacy flag becomes false, and a missing or empty author id becomes "unknown" |
| Persistence.NormaliseRoundTrip | app/page.tsx:486-494 | a saved request loads back unchanged, except that an empty author id loads as "unknown" |
| Persistence.NormaliseAll | app/page.tsx:486-494 | every parsed request is normalised, in order |
| Persistence.NormaliseAllRoundTrip | app/page.tsx:485-494 | a saved request list whose author ids are non-empty loads back unchanged |
| Persistence.LoadRequests | app/page.tsx:483-502 | a parsed list is normalised; a missing or malformed one is replaced by the example requests |
| Seed.DefaultRequests | app/page.tsx:536-651 | the three example requests, field by field; their properties are stated by `Persistence.SeedFallback` and `Persistence.SeedLinked` |
| Seed.DefaultVolunteers | app/page.tsx:653-724 | the five example volunteers, field by field; `Persistence.SeedLinked` states how they relate to the example requests |
| Persistence.SeedFallback | app/page.tsx:536-651 | the fallback request list holds the three examples, with ids "1", "2" and "3" |
| Persistence.SeedLinked | app/page.tsx:536-724 | the example requests' assignments are linked to the example volunteers |
| Persistence.LoadVolunteers | app/page.tsx:504-513 | a parsed volunteer list is taken as is; a missing or malformed one is replaced by the five examples |
| Persistence.LoadUser | app/page.tsx:475-481 | a parsed user becomes the current user; otherwise the current user stays |
| App.DisasterRecoveryPage.constructor | app/page.tsx:126-146 | the page starts with no user and two empty lists |
| App.DisasterRecoveryPage.Load | app/page.tsx:470-514 | the three cells take what `LoadUser`, `LoadRequests` and `LoadVolunteers` give for the stored entries |
| App.DisasterRecoveryPage.HandleLogin | app/page.tsx:259-269 | the user is signed in with the fresh id, the form's e-mail and role, the e-mail's local part as name, no phone and the join date |
| App.DisasterRecoveryPage.HandleRegister | app/page.tsx:285-294 | the user is signed in with the form's name, e-mail, role and phone, the fresh id and the join date |
| App.DisasterRecoveryPage.HandleLogout | app/page.tsx:310-313 | nobody is signed in |
| App.DisasterRecoveryPage.HandleSubmitRequest | app/page.tsx:315-335 | the request list becomes `SubmitRequest` of the old one: unchanged without a user, otherwise a pending request written by the user is put in front of it |
| App.DisasterRecoveryPage.ApproveRequest | app/page.tsx:347-349 | the request list becomes `ApproveRequest` of the old one |
| App.DisasterRecoveryPage.RejectRequest | app/page.tsx:351-353 | the request list becomes `RejectRequest` of the old one |
| App.DisasterRecoveryPage.AddOffer | app/page.tsx:355-373 | the request list becomes `AddOffer` of the old one |
| App.DisasterRecoveryPage.AddComment | app/page.tsx:375-393 | the request list becomes `AddComment` of the old one |
| App.DisasterRecoveryPage.HandleSubmitOffer | app/page.tsx:1516-1525 | the request list becomes `SubmitOffer` of the old one for the current user |
| App.DisasterRecoveryPage.HandleSubmitComment | app/page.tsx:1527-1536 | the request list becomes `SubmitComment` of the old one for the current user |
| App.DisasterRecoveryPage.AddVolunteerToRequest | app/page.tsx:395-430 | both lists are replaced in one handler, as `AddAssignment` and `MarkAssigned` say, and linked lists stay linked |
| App.DisasterRecoveryPage.HandleAssignVolunteer | app/page.tsx:1538-1552 | both lists become `HandleAssignVolunteer` of the old ones; an unknown volunteer id changes nothing |
| App.DisasterRecoveryPage.UpdateVolunteerStatus | app/page.tsx:432-445 | the request list becomes `UpdateVolunteerStatus` of the old one |
| App.DisasterRecoveryPage.AddVolunteer | app/page.tsx:447-459 | the volunteer list becomes `AddVolunteer` of the old one |

## Left out

- Rendering: all JSX, icons, the imported UI components and the static display tables (emergency resources, preparedness guides, categories, urgency colours, skill categories) are presentation only.
- Navigation and form state: the active tab, modal and form visibility flags, and form resets after a handler runs are not modelled. The forms' contents arrive as the handlers' draft arguments.
- Storage: reading and writing `localStorage` and `JSON.parse`/`JSON.stringify` are I/O. A stored entry arrives as a `Stored` value (absent, malformed, or parsed into a value), and the effects that save the lists back are not modelled.
- Text.Lower: lowers ASCII letters only, not the full Unicode case mapping of `toLowerCase`.
- Persistence.Normalise: takes the stored status and urgency as already-parsed enum values, so a stored status that is empty or not one of the four names is not modelled; the `||` on `offers`, `comments` and `volunteers` is modelled only for a missing list, since a parsed array is always truthy.
- Persistence.LoadUser: a stored user is a parsed `Option<User>`; a stored value that is not a user record is not modelled.
- Clock values: `Date.now()` ids and ISO timestamps are the `freshId` and `now` parameters; "Just now" is the constant the code writes.
- Ratings: `rating` is a floating-point number that no core operation computes with; it is kept as a `real` field, and a new volunteer gets 5.0.
- Transitions.AssignKeepsLinked: the `Linked` invariant runs only from assignments to volunteers. The reverse (every request a volunteer lists carries their assignment) is not kept by the code, because the volunteer side is updated even when no request has the id.
- Seed data: the example requests and volunteers are reproduced field by field, with long string literals split into concatenated pieces; an end-to-end assignment on the full example data is not stated, since `Transitions.AssignUniqueIds` states it for any lists with unique ids.
