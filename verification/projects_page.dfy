/** The public projects page: how it loads the list, the built-in list it
    falls back to, and the category filter. */
module ProjectsPage {
  import opened Wrappers
  import opened Text
  import opened Slug
  import opened Records
  import opened Cloudinary
  import FileStore
  import ProjectsApi
  import ProjectForm

  /** A project as the page holds it; the built-in entries carry no dates. */
  datatype Card = Card(
    title: string,
    category: string,
    images: seq<string>,
    description: string,
    completion: string,
    details: seq<string>,
    id: string,
    createdAt: Option<string>,
    updatedAt: Option<string>)

  // ---------------------------------------------------------------------------
  // The category filter

  /** The filter buttons, in the order they are shown. */
  const Filters := ["ALL", "RESIDENTIAL", "COMMERCIAL", "RENOVATIONS", "ROADS"]

  /** Whether a project of `category` is shown under `filter`. A filter the
      page does not know shows everything, as "ALL" does. */
  predicate Shows(filter: string, category: string) {
    var upper := Upper(category);
    if filter == "ALL" then true
    else if filter == "RESIDENTIAL" then Contains(upper, "RESIDENTIAL")
    else if filter == "COMMERCIAL" then Contains(upper, "COMMERCIAL")
    else if filter == "RENOVATIONS" then Contains(upper, "RENOVATION") || Contains(upper, "REMODELING")
    else if filter == "ROADS" then Contains(upper, "ROAD")
    else true
  }

  /** `projects.filter(...)` with the predicate above. */
  function FilterProjects(projects: seq<Card>, filter: string): (r: seq<Card>)
    ensures |r| <= |projects|
    ensures forall i | 0 <= i < |r| :: Shows(filter, r[i].category)
    decreases |projects|
  {
    if projects == [] then []
    else
      var rest := FilterProjects(projects[1..], filter);
      if Shows(filter, projects[0].category) then [projects[0]] + rest else rest
  }

  /** `a` is `b` with some elements left out, the rest in their order. */
  predicate IsSubsequence<T(==)>(a: seq<T>, b: seq<T>)
    decreases |b|
  {
    if a == [] then true
    else if b == [] then false
    else if a[0] == b[0] then IsSubsequence(a[1..], b[1..])
    else IsSubsequence(a, b[1..])
  }

  /** The filtered list keeps the page's order and drops only projects the
      filter does not show. */
  lemma {:induction false} FilterIsOrderedSelection(projects: seq<Card>, filter: string)
    ensures IsSubsequence(FilterProjects(projects, filter), projects)
    ensures forall c :: c in FilterProjects(projects, filter) <==> c in projects && Shows(filter, c.category)
    decreases |projects|
  {
    if projects != [] {
      FilterIsOrderedSelection(projects[1..], filter);
      assert projects == [projects[0]] + projects[1..];
    }
  }

  /** A project the filter shows is never dropped, so a filter that shows
      every category returns the list unchanged. */
  lemma {:induction false} FilterShowingAllIsIdentity(projects: seq<Card>, filter: string)
    requires forall i | 0 <= i < |projects| :: Shows(filter, projects[i].category)
    ensures FilterProjects(projects, filter) == projects
    decreases |projects|
  {
    if projects != [] {
      FilterShowingAllIsIdentity(projects[1..], filter);
      assert projects == [projects[0]] + projects[1..];
    }
  }

  /** "ALL" and any name that is not a filter button show the whole list. */
  lemma FilterAllKeepsEverything(projects: seq<Card>, filter: string)
    requires filter == "ALL" || filter !in Filters
    ensures FilterProjects(projects, filter) == projects
  {
    FilterShowingAllIsIdentity(projects, filter);
  }

  /** Filtering twice by the same filter is filtering once. */
  lemma {:induction false} FilterIdempotent(projects: seq<Card>, filter: string)
    ensures FilterProjects(FilterProjects(projects, filter), filter) == FilterProjects(projects, filter)
  {
    FilterShowingAllIsIdentity(FilterProjects(projects, filter), filter);
  }

  /** The matching is case-insensitive in the category: a category written in
      lower case is shown under the same filter as its upper-case form. */
  lemma ShowsIgnoresCase(filter: string, category: string)
    ensures Shows(filter, category) <==> Shows(filter, Upper(category))
  {
    UpperIdempotent(category);
  }

  lemma {:induction false} UpperIdempotent(s: string)
    ensures Upper(Upper(s)) == Upper(s)
    decreases |s|
  {
    if s != [] {
      UpperIdempotent(s[1..]);
    }
  }

  /** A single card is kept exactly when its category shows. */
  lemma FilterOfOne(c: Card, filter: string)
    ensures FilterProjects([c], filter) == if Shows(filter, c.category) then [c] else []
  {
    assert [c][1..] == [];
  }

  /** The filter works card by card: filtering a concatenation is
      concatenating the filtered parts, so repeated cards and their order are
      kept. */
  lemma {:induction false} FilterAppend(a: seq<Card>, b: seq<Card>, filter: string)
    ensures FilterProjects(a + b, filter) == FilterProjects(a, filter) + FilterProjects(b, filter)
    decreases |a|
  {
    if a == [] {
      assert a + b == b;
    } else {
      FilterAppend(a[1..], b, filter);
      assert (a + b)[0] == a[0] && (a + b)[1..] == a[1..] + b;
    }
  }

  /** An upper-case letter that `s` lacks in both cases is not in
      `s.toUpperCase()`. */
  lemma UpperLacks(s: string, c: char)
    requires IsUpperAscii(c)
    requires forall i | 0 <= i < |s| :: s[i] != c && s[i] != LowerChar(c)
    ensures c !in Upper(s)
  {
    UpperAt(s);
    forall i | 0 <= i < |s|
      ensures Upper(s)[i] != c
    {
      var d := s[i];
      assert Upper(s)[i] == UpperChar(d);
      if IsLowerAscii(d) {
        assert d as int != LowerChar(c) as int;
        assert UpperChar(d) as int != c as int;
      }
    }
  }

  /** `s.toUpperCase()` includes "ROAD" only if some character of `s`
      upper-cases to R and the next one to O. */
  lemma RoadNeedsRO(s: string)
    ensures Contains(Upper(s), "ROAD") ==>
      exists i | 0 <= i < |s| - 1 :: UpperChar(s[i]) == 'R' && UpperChar(s[i + 1]) == 'O'
  {
    UpperAt(s);
    var upper := Upper(s);
    if Contains(upper, "ROAD") {
      var k := IndexOf(upper, "ROAD").value;
      assert upper[k..k + 4][0] == upper[k] && upper[k..k + 4][1] == upper[k + 1];
      assert UpperChar(s[k]) == 'R' && UpperChar(s[k + 1]) == 'O';
    }
  }

  /** So a string none of whose R's is followed by an O does not show under
      "ROADS". */
  lemma NoRoadWithoutRO(s: string)
    requires forall i | 0 <= i < |s| - 1 :: UpperChar(s[i]) == 'R' ==> UpperChar(s[i + 1]) != 'O'
    ensures !Contains(Upper(s), "ROAD")
  {
    RoadNeedsRO(s);
  }

  /** Every character of an included pattern is a character of the string. */
  lemma ContainsChars(s: string, pattern: string)
    ensures Contains(s, pattern) ==> forall j | 0 <= j < |pattern| :: pattern[j] in s
  {
    if Contains(s, pattern) {
      var k := IndexOf(s, pattern).value;
      forall j | 0 <= j < |pattern|
        ensures pattern[j] in s
      {
        assert s[k..k + |pattern|][j] == s[k + j];
      }
    }
  }

  /** The form's "Residential Construction" shows under "RESIDENTIAL". */
  lemma ResidentialCategoryFilters(category: string)
    requires category == "Residential Construction"
    ensures Shows("RESIDENTIAL", category)
  {
    UpperAt(category);
    assert Upper(category)[..11] == "RESIDENTIAL";
    ContainsAt(Upper(category), "RESIDENTIAL", 0);
  }

  /** The form's "Commercial Construction" shows under "COMMERCIAL". */
  lemma CommercialCategoryFilters(category: string)
    requires category == "Commercial Construction"
    ensures Shows("COMMERCIAL", category)
  {
    UpperAt(category);
    assert Upper(category)[..10] == "COMMERCIAL";
    ContainsAt(Upper(category), "COMMERCIAL", 0);
  }

  /** The form's "Renovations & Remodeling" shows under "RENOVATIONS". */
  lemma RenovationCategoryFilters(category: string)
    requires category == "Renovations & Remodeling"
    ensures Shows("RENOVATIONS", category)
  {
    UpperAt(category);
    assert Upper(category)[..10] == "RENOVATION";
    ContainsAt(Upper(category), "RENOVATION", 0);
  }

  /** The form's "Road Construction" shows under "ROADS". */
  lemma RoadCategoryShowsUnderRoads(category: string)
    requires category == "Road Construction"
    ensures Shows("ROADS", category)
  {
    UpperAt(category);
    assert Upper(category)[..4] == "ROAD";
    ContainsAt(Upper(category), "ROAD", 0);
  }

  /** Four of the form's six categories show under their own button. */
  lemma FormCategoriesUnderTheirFilters(residential: string, commercial: string, renovations: string, road: string)
    requires residential == ProjectForm.Categories[0] && commercial == ProjectForm.Categories[1]
    requires renovations == ProjectForm.Categories[2] && road == ProjectForm.Categories[4]
    ensures Shows("RESIDENTIAL", residential) && Shows("COMMERCIAL", commercial)
    ensures Shows("RENOVATIONS", renovations) && Shows("ROADS", road)
  {
    ResidentialCategoryFilters(residential);
    CommercialCategoryFilters(commercial);
    RenovationCategoryFilters(renovations);
    RoadCategoryShowsUnderRoads(road);
  }

  /** A category naming none of the filters' keywords is shown under "ALL"
      and under no other button. */
  lemma OnlyUnderAll(category: string, filter: string)
    requires filter in Filters
    requires !Contains(Upper(category), "RESIDENTIAL") && !Contains(Upper(category), "COMMERCIAL")
    requires !Contains(Upper(category), "RENOVATION") && !Contains(Upper(category), "REMODELING")
    requires !Contains(Upper(category), "ROAD")
    ensures Shows(filter, category) <==> filter == "ALL"
  {
  }

  /** "Land Subdivision" has no R and no C, so it names no keyword. */
  lemma LandSubdivisionNamesNoKeyword(category: string)
    requires category == "Land Subdivision"
    ensures !Contains(Upper(category), "RESIDENTIAL") && !Contains(Upper(category), "COMMERCIAL")
    ensures !Contains(Upper(category), "RENOVATION") && !Contains(Upper(category), "REMODELING")
    ensures !Contains(Upper(category), "ROAD")
  {
    UpperLacks(category, 'R');
    UpperLacks(category, 'C');
    var upper := Upper(category);
    ContainsChars(upper, "RESIDENTIAL");
    ContainsChars(upper, "COMMERCIAL");
    ContainsChars(upper, "RENOVATION");
    ContainsChars(upper, "REMODELING");
    ContainsChars(upper, "ROAD");
    assert "RESIDENTIAL"[0] == 'R' && "COMMERCIAL"[0] == 'C' && "RENOVATION"[0] == 'R';
    assert "REMODELING"[0] == 'R' && "ROAD"[0] == 'R';
  }

  /** The form offers "Land Subdivision", but no filter button but "ALL"
      shows it. */
  lemma LandSubdivisionOnlyUnderAll(category: string, filter: string)
    requires category == ProjectForm.Categories[3]
    requires filter in Filters
    ensures Shows(filter, category) <==> filter == "ALL"
  {
    assert category == "Land Subdivision";
    LandSubdivisionNamesNoKeyword(category);
    OnlyUnderAll(category, filter);
  }

  /** Each keyword but "ROAD" has an E in it. */
  lemma NoEKeyword(upper: string)
    requires 'E' !in upper
    ensures !Contains(upper, "RESIDENTIAL") && !Contains(upper, "COMMERCIAL")
    ensures !Contains(upper, "RENOVATION") && !Contains(upper, "REMODELING")
  {
    ContainsChars(upper, "RESIDENTIAL");
    ContainsChars(upper, "COMMERCIAL");
    ContainsChars(upper, "RENOVATION");
    ContainsChars(upper, "REMODELING");
    assert "RESIDENTIAL"[1] == 'E' && "COMMERCIAL"[4] == 'E' && "RENOVATION"[1] == 'E';
    assert "REMODELING"[1] == 'E';
  }

  /** "Landscaping & Outdoor Living" has no E, and its one R is followed by a
      space, so it names no keyword either. */
  lemma LandscapingNamesNoKeyword(category: string)
    requires category == "Landscaping & Outdoor Living"
    ensures !Contains(Upper(category), "RESIDENTIAL") && !Contains(Upper(category), "COMMERCIAL")
    ensures !Contains(Upper(category), "RENOVATION") && !Contains(Upper(category), "REMODELING")
    ensures !Contains(Upper(category), "ROAD")
  {
    LandscapingHasNoE(category);
    NoEKeyword(Upper(category));
    LandscapingNamesNoRoad(category);
  }

  /** "Landscaping & Outdoor Living" has no E in either case. */
  lemma LandscapingHasNoE(category: string)
    requires category == "Landscaping & Outdoor Living"
    ensures 'E' !in Upper(category)
  {
    UpperLacks(category, 'E');
  }

  /** The one R of "Landscaping & Outdoor Living" is followed by a space. */
  lemma LandscapingNamesNoRoad(category: string)
    requires category == "Landscaping & Outdoor Living"
    ensures !Contains(Upper(category), "ROAD")
  {
    NoRoadWithoutRO(category);
  }

  /** Nor does any button but "ALL" show "Landscaping & Outdoor Living". */
  lemma LandscapingOnlyUnderAll(category: string, filter: string)
    requires category == ProjectForm.Categories[5]
    requires filter in Filters
    ensures Shows(filter, category) <==> filter == "ALL"
  {
    assert category == "Landscaping & Outdoor Living";
    LandscapingNamesNoKeyword(category);
    OnlyUnderAll(category, filter);
  }

  // ---------------------------------------------------------------------------
  // Loading the list

  /** What `fetch('/api/projects')` came back with: an answer, ok when its
      status is 200-299, with the parsed body; or a thrown error. */
  datatype FetchOutcome = Answered(ok: bool, data: seq<Card>) | Threw

  datatype PageState = PageState(projects: seq<Card>, error: Option<string>, loading: bool)

  const LoadError := "Failed to load projects"

  /** Before the fetch settles: no projects, no error, loading. */
  const InitialPage := PageState([], None, true)

  /** The state once `fetchProjects` has finished, with `fallback` standing
      for the built-in list. */
  function AfterFetchWith(fallback: seq<Card>, page: PageState, outcome: FetchOutcome): (s: PageState)
    ensures !s.loading
    ensures outcome.Answered? && outcome.ok ==> s.projects == outcome.data && s.error == page.error
    ensures outcome.Answered? && !outcome.ok ==> s.projects == fallback && s.error == page.error
    ensures outcome.Threw? ==> s.projects == fallback && s.error == Some(LoadError)
  {
    match outcome
    case Answered(ok, data) => PageState(if ok then data else fallback, page.error, false)
    case Threw => PageState(fallback, Some(LoadError), false)
  }

  /** The state once `fetchProjects` has finished. */
  function AfterFetch(page: PageState, outcome: FetchOutcome): PageState {
    AfterFetchWith(FallbackProjects(), page, outcome)
  }

  /** A stored project as the JSON answer delivers it to the page. */
  function ToCard(p: Project): (c: Card)
    ensures c.id == p.id && c.title == p.title && c.category == p.category
    ensures c.createdAt == Some(p.createdAt) && c.updatedAt == Some(p.updatedAt)
  {
    Card(p.title, p.category, p.images, p.description, p.completion, p.details, p.id,
         Some(p.createdAt), Some(p.updatedAt))
  }

  function ToCards(ps: seq<Project>): (cs: seq<Card>)
    ensures |cs| == |ps| && forall i | 0 <= i < |ps| :: cs[i] == ToCard(ps[i])
  {
    seq(|ps|, i requires 0 <= i < |ps| => ToCard(ps[i]))
  }

  /** The list endpoint always answers 200, so once it is reachable the page
      shows exactly what it returned, never the built-in list, and no error:
      the fallback is only for an unreachable or failing server. */
  lemma PageShowsListAnswer(env: SupabaseEnv, file: FileStore.JsonFile, answer: ProjectsApi.ListAnswer,
                            fallback: seq<Card>)
    ensures var r := ProjectsApi.Get(env, file, answer);
      var s := AfterFetchWith(fallback, InitialPage, Answered(200 <= r.status < 300, ToCards(r.payload.projects)));
      s == PageState(ToCards(r.payload.projects), None, false)
  {
  }

  // ---------------------------------------------------------------------------
  // The built-in list

  /** The list shown when the server cannot be reached or fails. */
  function FallbackProjects(): seq<Card> {
    [DrivewayAsphalting(), LuxuryResidentialComplex(), ModernResidentialComplex(), HomeRenovationProject(), CommercialBuildingDevelopment()]
  }

  function DrivewayAsphalting(): Card {
    Card(
      "Driveway Asphalting",
      "Road Construction",
      [ ProjectFolder + "projects/road-construction/" + "driveway-1",
        ProjectFolder + "projects/road-construction/" + "driveway-2",
        ProjectFolder + "projects/road-construction/" + "driveway-3",
        ProjectFolder + "projects/road-construction/" + "driveway-4",
        ProjectFolder + "projects/road-construction/" + "driveway-5",
        ProjectFolder + "projects/road-construction/" + "driveway-6",
        ProjectFolder + "projects/road-construction/" + "driveway-7" ],
      "Complete driveway " + "transformation project " + "featuring professional "
      + "asphalt paving, proper " + "drainage solutions, " + "and expert finishing "
      + "work. Showcasing our " + "commitment to quality " + "residential road "
      + "construction.",
      "2023",
      [ "Professional grade " + "asphalt installation",
        "Proper drainage " + "engineering",
        "Edge treatment and " + "finishing",
        "Long-lasting " + "durability coating" ],
      "driveway-asphalting",
      None, None)
  }

  function LuxuryResidentialComplex(): Card {
    Card(
      "Luxury Residential Complex",
      "Residential Construction",
      [ ProjectFolder + "projects/residential-construction/" + "luxury-1",
        ProjectFolder + "projects/residential-construction/" + "luxury-2",
        ProjectFolder + "projects/residential-construction/" + "luxury-3",
        ProjectFolder + "projects/residential-construction/" + "luxury-4" ],
      "Multi-unit residential " + "development showcasing " + "modern architectural "
      + "design, premium " + "finishes, and " + "attention to detail in "
      + "every aspect of " + "construction.",
      "2023",
      [ "Custom architectural " + "design",
        "Premium exterior " + "finishes",
        "Modern amenity " + "integration",
        "Energy-efficient " + "construction" ],
      "luxury-residential-complex",
      None, None)
  }

  function ModernResidentialComplex(): Card {
    Card(
      "Modern Residential Complex",
      "Residential Construction",
      [ ProjectFolder + "projects/residential-construction/" + "modern-1",
        ProjectFolder + "projects/residential-construction/" + "modern-2",
        ProjectFolder + "projects/residential-construction/" + "modern-3" ],
      "Contemporary " + "residential " + "development featuring "
      + "clean lines, open " + "spaces, and innovative " + "design elements that "
      + "blend functionality " + "with aesthetic appeal.",
      "2022",
      [ "Contemporary design " + "elements",
        "Open-concept layouts",
        "High-end material " + "selection",
        "Integrated outdoor " + "spaces" ],
      "modern-residential-complex",
      None, None)
  }

  function HomeRenovationProject(): Card {
    Card(
      "Home Renovation Project",
      "Renovations & Remodeling",
      [ ProjectFolder + "projects/renovations-remodeling/" + "renovations-1" ],
      "Comprehensive home " + "renovation showcasing " + "our ability to "
      + "transform existing " + "spaces into modern, " + "functional living "
      + "areas while " + "maintaining structural " + "integrity.",
      "2022",
      [ "Complete interior " + "redesign",
        "Structural " + "improvements",
        "Modern fixture " + "installation",
        "Custom finishing " + "work" ],
      "home-renovation-project",
      None, None)
  }

  function CommercialBuildingDevelopment(): Card {
    Card(
      "Commercial Building Development",
      "Commercial Construction",
      [ ProjectFolder + "projects/commercial-construction/" + "commercial-1",
        ProjectFolder + "projects/commercial-construction/" + "commercial-2",
        ProjectFolder + "projects/commercial-construction/" + "commercial-3",
        ProjectFolder + "projects/commercial-construction/" + "commercial-4" ],
      "State-of-the-art " + "commercial facility " + "featuring modern "
      + "design elements, " + "efficient space " + "utilization, and "
      + "sustainable building " + "practices.",
      "2023",
      [ "Modern commercial " + "design",
        "Energy-efficient " + "systems",
        "Professional space " + "planning",
        "Premium building " + "materials" ],
      "commercial-building-development",
      None, None)
  }

  // Each word of the built-in titles is a title word with a known lower-cased
  // form. One lemma per word keeps each literal in a proof of its own.

  lemma LuxuryWord() ensures IsTitleWord("Luxury") && Decapitalize("Luxury") == "luxury" {}
  lemma ResidentialWord() ensures IsTitleWord("Residential") && Decapitalize("Residential") == "residential" {}
  lemma ComplexWord() ensures IsTitleWord("Complex") && Decapitalize("Complex") == "complex" {}
  lemma ModernWord() ensures IsTitleWord("Modern") && Decapitalize("Modern") == "modern" {}
  lemma HomeWord() ensures IsTitleWord("Home") && Decapitalize("Home") == "home" {}
  lemma RenovationWord() ensures IsTitleWord("Renovation") && Decapitalize("Renovation") == "renovation" {}
  lemma ProjectWord() ensures IsTitleWord("Project") && Decapitalize("Project") == "project" {}
  lemma CommercialWord() ensures IsTitleWord("Commercial") && Decapitalize("Commercial") == "commercial" {}
  lemma BuildingWord() ensures IsTitleWord("Building") && Decapitalize("Building") == "building" {}
  lemma DevelopmentWord() ensures IsTitleWord("Development") && Decapitalize("Development") == "development" {}

  lemma LuxuryResidentialComplexTitleParts(title: string)
    requires title == "Luxury Residential Complex"
    ensures title == "Luxury" + " " + "Residential" + " " + "Complex"
  {
  }

  lemma LuxuryResidentialComplexIdParts(id: string)
    requires id == "luxury-residential-complex"
    ensures id == "luxury" + "-" + "residential" + "-" + "complex"
  {
  }

  lemma LuxuryResidentialComplexId(title: string, id: string)
    requires title == "Luxury Residential Complex" && id == "luxury-residential-complex"
    ensures GenerateId(title) == id
  {
    LuxuryResidentialComplexTitleParts(title);
    LuxuryResidentialComplexIdParts(id);
    LuxuryWord(); ResidentialWord(); ComplexWord();
    ThreeWordTitleId(title, "Luxury", "Residential", "Complex", id, "luxury", "residential", "complex");
  }

  lemma ModernResidentialComplexTitleParts(title: string)
    requires title == "Modern Residential Complex"
    ensures title == "Modern" + " " + "Residential" + " " + "Complex"
  {
  }

  lemma ModernResidentialComplexIdParts(id: string)
    requires id == "modern-residential-complex"
    ensures id == "modern" + "-" + "residential" + "-" + "complex"
  {
  }

  lemma ModernResidentialComplexId(title: string, id: string)
    requires title == "Modern Residential Complex" && id == "modern-residential-complex"
    ensures GenerateId(title) == id
  {
    ModernResidentialComplexTitleParts(title);
    ModernResidentialComplexIdParts(id);
    ModernWord(); ResidentialWord(); ComplexWord();
    ThreeWordTitleId(title, "Modern", "Residential", "Complex", id, "modern", "residential", "complex");
  }

  lemma HomeRenovationProjectTitleParts(title: string)
    requires title == "Home Renovation Project"
    ensures title == "Home" + " " + "Renovation" + " " + "Project"
  {
  }

  lemma HomeRenovationProjectIdParts(id: string)
    requires id == "home-renovation-project"
    ensures id == "home" + "-" + "renovation" + "-" + "project"
  {
  }

  lemma HomeRenovationProjectId(title: string, id: string)
    requires title == "Home Renovation Project" && id == "home-renovation-project"
    ensures GenerateId(title) == id
  {
    HomeRenovationProjectTitleParts(title);
    HomeRenovationProjectIdParts(id);
    HomeWord(); RenovationWord(); ProjectWord();
    ThreeWordTitleId(title, "Home", "Renovation", "Project", id, "home", "renovation", "project");
  }

  lemma CommercialBuildingDevelopmentTitleParts(title: string)
    requires title == "Commercial Building Development"
    ensures title == "Commercial" + " " + "Building" + " " + "Development"
  {
  }

  lemma CommercialBuildingDevelopmentIdParts(id: string)
    requires id == "commercial-building-development"
    ensures id == "commercial" + "-" + "building" + "-" + "development"
  {
  }

  lemma CommercialBuildingDevelopmentId(title: string, id: string)
    requires title == "Commercial Building Development" && id == "commercial-building-development"
    ensures GenerateId(title) == id
  {
    CommercialBuildingDevelopmentTitleParts(title);
    CommercialBuildingDevelopmentIdParts(id);
    CommercialWord(); BuildingWord(); DevelopmentWord();
    ThreeWordTitleId(title, "Commercial", "Building", "Development", id, "commercial", "building", "development");
  }

  /** Every built-in project's id is the one `generateId` gives its title. */
  lemma FallbackIdsAreGenerated(c: Card)
    requires c in FallbackProjects()
    ensures GenerateId(c.title) == c.id
  {
    if c == DrivewayAsphalting() {
      DrivewayAsphaltingId(c.title, c.id);
    } else if c == LuxuryResidentialComplex() {
      LuxuryResidentialComplexId(c.title, c.id);
    } else if c == ModernResidentialComplex() {
      ModernResidentialComplexId(c.title, c.id);
    } else if c == HomeRenovationProject() {
      HomeRenovationProjectId(c.title, c.id);
    } else {
      CommercialBuildingDevelopmentId(c.title, c.id);
    }
  }
}
