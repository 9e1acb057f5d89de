/** The built-in example data the page falls back on when nothing usable
    is stored (`getDefaultRequests` and `getDefaultVolunteers`,
    app/page.tsx:536-724). Long texts are written as concatenations of
    short literals, which the verifier handles far more cheaply than one
    long literal; the strings themselves are those of the source. */
module Seed {
  import opened Domain

  /** The approved, public shelter request "1", with one offer, one comment and volunteer vol1. */
  function ShelterRequest(): HelpRequest
  {
    HelpRequest(
      "1",
      "Need temporary " + "shelter for " + "family of 4",
      "Our home was " + "damaged in the " + "recent " + "flooding. We " + "need temporary " +
        "accommodation " + "for 2 adults " + "and 2 children " + "(ages 8 and 12) " + "for " +
        "approximately " + "2-3 weeks while " + "repairs are " + "made.",
      "Downtown " + "District, Zone 3",
      "shelter",
      High,
      "2 hours ago",
      "Sarah M.",
      "user1",
      [HelpOffer("1", "Mike R.",
         "I have a guest " + "house " + "available. Can " + "accommodate " + "your family. " +
           "Contact me at " + "mike.r@email.com",
         "1 hour ago", "mike.r@email.com")],
      [Comment("1", "Lisa K.", "I can provide " + "bedding and " + "clothes for the " +
        "children if " + "needed.", "30 minutes ago")],
      [VolunteerAssignment("1", "vol1", "Emma Thompson", "emma.t@email.com",
         ["Housing " + "Assistance", "Family Support"], AssignmentStatus.Active, "1 hour ago",
         "I can help " + "coordinate " + "temporary " + "housing and " + "provide family " +
           "support " + "services.")],
      RequestStatus.Approved,
      false)
  }

  /** The approved, public medical request "2", with volunteer vol2. */
  function MedicalRequest(): HelpRequest
  {
    HelpRequest(
      "2",
      "Medical " + "supplies needed " + "urgently",
      "Local clinic is " + "running low on " + "basic medical " + "supplies " + "including " +
        "bandages, " + "antiseptics, " + "and pain " + "medication. " + "Serving 200+ " +
        "displaced " + "families.",
      "Medical Center, " + "Zone 1",
      "medical",
      Critical,
      "4 hours ago",
      "Dr. James Wilson",
      "user2",
      [],
      [],
      [VolunteerAssignment("2", "vol2", "Dr. Maria " + "Rodriguez", "maria.r@hospital.com",
         ["Medical Support", "Emergency " + "Response"], AssignmentStatus.Active, "2 hours ago",
         "I can provide " + "medical " + "expertise and " + "help coordinate " + "supply " +
           "distribution.")],
      RequestStatus.Approved,
      false)
  }

  /** The approved, public food request "3", with two offers and volunteer vol3. */
  function FoodRequest(): HelpRequest
  {
    HelpRequest(
      "3",
      "Food " + "distribution " + "volunteers " + "needed",
      "We need 10-15 " + "volunteers to " + "help distribute " + "meals to " + "affected " +
        "families. Shift " + "times: 8AM-12PM " + "and 1PM-5PM " + "daily.",
      "Community " + "Center, Zone 2",
      "volunteers",
      Medium,
      "6 hours ago",
      "Relief " + "Coordinator",
      "user3",
      [HelpOffer("2", "Emma T.", "I can volunteer " + "for the morning " + "shift. " +
        "Available all " + "week.",
         "3 hours ago", "emma.t@email.com"),
       HelpOffer("3", "Carlos M.", "Count me in for " + "afternoon " + "shifts. I have " +
         "experience in " + "food service.",
         "2 hours ago", "carlos.m@email.com")],
      [],
      [VolunteerAssignment("3", "vol3", "Carlos Martinez", "carlos.m@email.com",
         ["Food Service", "Community " + "Outreach"], AssignmentStatus.Active, "2 hours ago",
         "Leading the " + "afternoon food " + "distribution " + "team with 5 " + "other " +
           "volunteers.")],
      RequestStatus.Approved,
      false)
  }

  function DefaultRequests(): seq<HelpRequest>
  {
    [ShelterRequest(), MedicalRequest(), FoodRequest()]
  }

  function DefaultVolunteers(): seq<Volunteer>
  {
    [
      Volunteer.Volunteer("vol1", "Emma Thompson", "emma.t@email.com", "(555) 123-4567",
        ["Housing " + "Assistance", "Family Support", "Childcare"], "Weekdays",
        "5 years " + "experience in " + "social work and " + "family crisis " +
          "support", Busy, ["1"], 12, 4.9, "2 weeks ago"),
      Volunteer.Volunteer("vol2", "Dr. Maria " +
        "Rodriguez", "maria.r@hospital.com", "(555) 234-5678",
        ["Medical Support", "Emergency " + "Response", "Triage"], "24/7 Emergency " + "Response",
        "15 years " + "emergency " + "medicine, " + "disaster " + "response " +
          "certified", Busy, ["2"], 28, 5.0, "1 month ago"),
      Volunteer.Volunteer("vol3", "Carlos Martinez", "carlos.m@email.com", "(555) 345-6789",
        ["Food Service", "Community " + "Outreach", "Translation"], "Evenings",
        "Restaurant " + "manager, " + "bilingual " +
          "Spanish/English", Busy, ["3"], 8, 4.8, "1 week ago"),
      Volunteer.Volunteer("vol4", "Sarah Johnson", "sarah.j@email.com", "(555) 456-7890",
        ["Transportation", "Logistics", "Pet Care"], "Flexible",
        "Uber driver, " + "pet owner, " + "logistics " +
          "coordinator", Available, [], 15, 4.7, "3 weeks ago"),
      Volunteer.Volunteer("vol5", "Michael Chen", "michael.c@email.com", "(555) 567-8901",
        ["Construction", "Repairs", "Heavy Lifting"], "Weekends",
        "Construction " + "foreman, 20 " + "years building " +
          "experience", Available, [], 22, 4.9, "1 month ago")
    ]
  }
}
