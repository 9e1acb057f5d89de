/** The volunteer directory: its search (`filteredVolunteers`,
    app/page.tsx:741-748) and the skill picker of the registration form
    (`toggleSkill`, app/page.tsx:2321-2326). */
module Directory {
  import opened Domain
  import opened Seqs
  import opened Text

  /** Some skill of the volunteer contains the (already lowered) term. */
  predicate SkillMatches(v: Volunteer, loweredTerm: string)
  {
    exists k :: 0 <= k < |v.skills| && Includes(Lower(v.skills[k]), loweredTerm)
  }

  /** The search box: the lowered term is a substring of the lowered name,
      of some lowered skill, or of the lowered experience. */
  predicate VolunteerMatchesSearch(v: Volunteer, term: string)
  {
    var t := Lower(term);
    Includes(Lower(v.name), t) || SkillMatches(v, t) || Includes(Lower(v.experience), t)
  }

  /** The skill filter: "all", or a skill the volunteer lists verbatim. */
  predicate VolunteerMatchesSkill(v: Volunteer, skillFilter: string)
  {
    skillFilter == "all" || skillFilter in v.skills
  }

  predicate Listed(term: string, skillFilter: string, v: Volunteer)
  {
    VolunteerMatchesSearch(v, term) && VolunteerMatchesSkill(v, skillFilter)
  }

  /** `filteredVolunteers`: the listed volunteers, in directory order. */
  function FilterVolunteers(vs: seq<Volunteer>, term: string, skillFilter: string): (r: seq<Volunteer>)
    ensures IsSubsequence(r, vs)
    ensures forall k :: 0 <= k < |vs| ==> (vs[k] in r <==> Listed(term, skillFilter, vs[k]))
    ensures forall v :: multiset(r)[v] == if Listed(term, skillFilter, v) then multiset(vs)[v] else 0
  {
    Filter(vs, (v: Volunteer) => Listed(term, skillFilter, v))
  }

  /** The empty search with the skill filter "all" lists every volunteer. */
  lemma EmptySearchListsAll(vs: seq<Volunteer>)
    ensures FilterVolunteers(vs, "", "all") == vs
  {
    forall k | 0 <= k < |vs|
      ensures Listed("", "all", vs[k])
    {
      IncludesEmpty(Lower(vs[k].name));
    }
    FilterAll(vs, (v: Volunteer) => Listed("", "all", v));
  }

  /** `toggleSkill`: a listed skill is removed (every copy of it), an
      unlisted one is appended. */
  function ToggleSkill(skills: seq<string>, skill: string): (r: seq<string>)
    ensures (skill in r) <==> (skill !in skills)
    ensures forall x :: x != skill ==> (x in r <==> x in skills)
    ensures skill in skills ==> IsSubsequence(r, skills) && |r| < |skills|
    ensures skill !in skills ==> |r| == |skills| + 1 && r[..|skills|] == skills
  {
    if skill in skills then
      var r := Filter(skills, (s: string) => s != skill);
      assert multiset(r)[skill] == 0 < multiset(skills)[skill];
      assert forall x :: x != skill ==> multiset(r)[x] == multiset(skills)[x];
      assert exists i :: 0 <= i < |skills| && skills[i] == skill;
      r
    else
      skills + [skill]
  }

  /** Picking an unlisted skill and then picking it again restores the
      list. */
  lemma ToggleTwice(skills: seq<string>, skill: string)
    requires skill !in skills
    ensures ToggleSkill(ToggleSkill(skills, skill), skill) == skills
  {
    var keep := (s: string) => s != skill;
    FilterAppend(skills, [skill], keep);
    FilterAll(skills, keep);
    assert Filter([skill], keep) == [];
  }
}
