/** The static project catalogue of lib/projects.ts and its three queries. */
module Projects {
  import opened Results
  import opened Lists

  /** One case study: the fields the queries and listings use. The prose, image,
      gallery and KPI fields are display-only and not part of this model. */
  datatype Project = Project(
    id: string, slug: string, title: string, client: string,
    category: seq<string>, year: string, location: string,
    featured: bool)

  /** The `projects` table, in its declared order. */
  const Table: seq<Project> := [MarinaBay, SheWorksWonders, IsdbAnnualMeeting, ForbesSummit, SportsExpo, GoldenParade]

  const MarinaBay: Project := Project(
    id := "1", slug := "marina-bay-bahrain", title := "Marina Bay Launch", client := "Infra Corp",
    category := ["Influence PR"], year := "2023", location := "Bahrain",
    featured := true)

  const SheWorksWonders: Project := Project(
    id := "2", slug := "pepsico-she-works-wonders", title := "She Works Wonders", client := "PepsiCo",
    category := ["Influence PR", "Influence X"], year := "2023", location := "Egypt",
    featured := true)

  const IsdbAnnualMeeting: Project := Project(
    id := "3", slug := "isdb-annual-meeting-2022", title := "Annual Meeting 2022", client := "Islamic Development Bank",
    category := ["Influence PR"], year := "2022", location := "Sharm El-Sheikh, Egypt",
    featured := true)

  const ForbesSummit: Project := Project(
    id := "4", slug := "forbes-30-under-30-summit", title := "30 Under 30 Summit", client := "Forbes Middle East",
    category := ["Influence PR"], year := "2023", location := "Egypt",
    featured := false)

  const SportsExpo: Project := Project(
    id := "5", slug := "sports-expo-2023", title := "Sports EXPO 2023", client := "Sports EXPO",
    category := ["Influence PR", "Mention"], year := "2023", location := "Egypt",
    featured := true)

  const GoldenParade: Project := Project(
    id := "6", slug := "golden-parade", title := "The Golden Parade", client := "Ministry of Tourism",
    category := ["Influence PR"], year := "2021", location := "Egypt",
    featured := true)

  // ---- `Array.prototype.find` on project lists ----

  /** `ps.find((p) => p.slug === slug)`: the first project with that slug, or
      `undefined` when there is none. */
  function Find(ps: seq<Project>, slug: string): (r: Option<Project>)
    ensures r.None? <==> forall p :: p in ps ==> p.slug != slug
    ensures r.Some? ==> r.value in ps && r.value.slug == slug
    decreases |ps|
  {
    if |ps| == 0 then None
    else if ps[0].slug == slug then Some(ps[0])
    else Find(ps[1..], slug)
  }

  /** With several matches, `Find` returns the earliest one. */
  lemma {:induction false} FindReturnsFirst(ps: seq<Project>, slug: string, i: nat)
    requires i < |ps| && ps[i].slug == slug
    requires forall j :: 0 <= j < i ==> ps[j].slug != slug
    ensures Find(ps, slug) == Some(ps[i])
    decreases i
  {
    if i > 0 {
      assert ps[0].slug != slug;
      FindReturnsFirst(ps[1..], slug, i - 1);
    }
  }

  // ---- the exported queries ----

  /** `getProjectBySlug`. */
  function GetProjectBySlug(slug: string): (r: Option<Project>)
    ensures r.Some? ==> r.value in Table && r.value.slug == slug
    ensures r.None? <==> forall p :: p in Table ==> p.slug != slug
  {
    Find(Table, slug)
  }

  /** The filter callback of `getFeaturedProjects` and of the projects page's first list. */
  predicate IsFeatured(p: Project) {
    p.featured
  }

  /** The filter callback of the projects page's second list. */
  predicate IsNotFeatured(p: Project) {
    !p.featured
  }

  /** The filter callback of `getProjectsByCategory`: exact, case-sensitive equality
      with one entry of the category list. */
  function InCategory(category: string): Project -> bool {
    (p: Project) => category in p.category
  }

  /** `getFeaturedProjects`: exactly the featured projects, in table order. */
  function GetFeaturedProjects(): (r: seq<Project>)
    ensures |r| <= |Table|
    ensures forall p {:trigger p in r} :: p in r <==> p in Table && p.featured
    ensures forall p {:trigger multiset(r)[p]} :: multiset(r)[p] == if p.featured then multiset(Table)[p] else 0
    ensures IsSubsequence(r, Table)
  {
    FilterCounts(Table, IsFeatured);
    FilterIsSubsequence(Table, IsFeatured);
    Filter(Table, IsFeatured)
  }

  /** `getProjectsByCategory`: exactly the projects listing the category, in table order. */
  function GetProjectsByCategory(category: string): (r: seq<Project>)
    ensures |r| <= |Table|
    ensures forall p {:trigger p in r} :: p in r <==> p in Table && category in p.category
    ensures forall p {:trigger multiset(r)[p]} :: multiset(r)[p] == if category in p.category then multiset(Table)[p] else 0
    ensures IsSubsequence(r, Table)
  {
    FilterCounts(Table, InCategory(category));
    FilterIsSubsequence(Table, InCategory(category));
    Filter(Table, InCategory(category))
  }

  // ---- facts about the static table ----

  /** The ids of a list of projects, in order. */
  function Ids(ps: seq<Project>): (r: seq<string>)
    ensures |r| == |ps|
    ensures forall i :: 0 <= i < |ps| ==> r[i] == ps[i].id
    decreases |ps|
  {
    if |ps| == 0 then [] else [ps[0].id] + Ids(ps[1..])
  }

  /** No two projects share a slug. */
  lemma SlugsDistinct()
    ensures forall i, j :: 0 <= i < j < |Table| ==> Table[i].slug != Table[j].slug
  {
  }

  /** Looking up the slug of any listed project yields that very project. */
  lemma LookupFindsUniqueMatch()
    ensures forall i :: 0 <= i < |Table| ==> GetProjectBySlug(Table[i].slug) == Some(Table[i])
  {
    SlugsDistinct();
    forall i | 0 <= i < |Table|
      ensures GetProjectBySlug(Table[i].slug) == Some(Table[i])
    {
      FindReturnsFirst(Table, Table[i].slug, i);
    }
  }

  /** The projects page lists featured and other projects with complementary filters:
      together they hold every project exactly once. */
  lemma ProjectsPagePartition()
    ensures multiset(Filter(Table, IsFeatured)) + multiset(Filter(Table, IsNotFeatured)) == multiset(Table)
    ensures |Filter(Table, IsFeatured)| + |Filter(Table, IsNotFeatured)| == |Table|
    ensures forall p :: p in Table ==> (p in Filter(Table, IsFeatured) <==> p !in Filter(Table, IsNotFeatured))
  {
    FilterPartition(Table, IsFeatured, IsNotFeatured);
  }

  /** The featured projects are all but the fourth. */
  lemma FeaturedIds()
    ensures Ids(GetFeaturedProjects()) == ["1", "2", "3", "5", "6"]
  {
    var before, after := [MarinaBay, SheWorksWonders, IsdbAnnualMeeting], [SportsExpo, GoldenParade];
    assert GetFeaturedProjects() == before + after by {
      assert Table == before + ([ForbesSummit] + after);
      FilterAppend(before, [ForbesSummit] + after, IsFeatured);
      FilterAppend([ForbesSummit], after, IsFeatured);
      FilterKeepsAll(before, IsFeatured);
      FilterKeepsAll(after, IsFeatured);
      FilterKeepsNone([ForbesSummit], IsFeatured);
    }
    assert before + after == [MarinaBay, SheWorksWonders, IsdbAnnualMeeting, SportsExpo, GoldenParade];
  }

  lemma InfluenceXIds()
    ensures Ids(GetProjectsByCategory("Influence X")) == ["2"]
  {
    FilterKeepsOne(Table, InCategory("Influence X"), 1);
  }

  lemma MentionIds()
    ensures Ids(GetProjectsByCategory("Mention")) == ["5"]
  {
    FilterKeepsOne(Table, InCategory("Mention"), 4);
  }

  lemma InfluencePrIsEverything()
    ensures GetProjectsByCategory("Influence PR") == Table
  {
    FilterKeepsAll(Table, InCategory("Influence PR"));
  }

  /** Category matching is case-sensitive and knows no other categories. */
  lemma UnknownCategoryIsEmpty()
    ensures GetProjectsByCategory("influence pr") == []
    ensures GetProjectsByCategory("Events") == []
  {
    FilterKeepsNone(Table, InCategory("influence pr"));
    FilterKeepsNone(Table, InCategory("Events"));
  }
}
