/** The projects page's list filter: a category selector combined with a
    case-insensitive search over each project's title and tags. */
module ProjectFilter {
  import opened Text

  /** A project card's data; the description, image and links only feed the view. */
  datatype Project = Project(id: nat, title: string, category: string, tags: seq<string>)

  const AllCategory: string := "All"

  const AllProjects: seq<Project> := [
    Project(1, "E-Commerce Platform", "Full Stack", ["React", "Node.js", "PostgreSQL", "Stripe"]),
    Project(2, "AI Task Manager", "SaaS", ["TypeScript", "OpenAI", "Redis", "Docker"]),
    Project(3, "Real-time Analytics", "Dashboard", ["React", "D3.js", "WebSocket", "AWS"]),
    Project(4, "Social Media App", "Mobile", ["React Native", "Firebase", "GraphQL"]),
    Project(5, "Crypto Dashboard", "FinTech", ["Vue.js", "Python", "WebSocket", "Charts"]),
    Project(6, "DevOps Pipeline", "Infrastructure", ["Docker", "Kubernetes", "Terraform", "Jenkins"])
  ]

  const Categories: seq<string> :=
    ["All", "Full Stack", "SaaS", "Dashboard", "Mobile", "FinTech", "Infrastructure"]

  /** Every category button other than 'All' names the category of some project,
      and every project's category has a button. */
  lemma CategoriesCoverProjects()
    ensures forall i :: 0 <= i < |AllProjects| ==> AllProjects[i].category in Categories
    ensures forall c :: c in Categories && c != AllCategory ==>
      exists i :: 0 <= i < |AllProjects| && AllProjects[i].category == c
  {
    assert AllProjects[0].category == Categories[1];
    assert AllProjects[1].category == Categories[2];
    assert AllProjects[2].category == Categories[3];
    assert AllProjects[3].category == Categories[4];
    assert AllProjects[4].category == Categories[5];
    assert AllProjects[5].category == Categories[6];
  }

  /** 'All' places no constraint; any other category must match exactly. */
  function MatchesCategory(p: Project, category: string): (r: bool)
    ensures category == AllCategory ==> r
    ensures category != AllCategory ==> (r <==> p.category == category)
  {
    category == AllCategory || p.category == category
  }

  /** `tags.some(tag => tag.toLowerCase().includes(q))` for an already lower-cased `q`. */
  function SomeTagIncludes(tags: seq<string>, q: string): (r: bool)
    ensures r <==> exists i :: 0 <= i < |tags| && Includes(Lower(tags[i]), q)
  {
    if tags == [] then false
    else Includes(Lower(tags[0]), q) || SomeTagIncludes(tags[1..], q)
  }

  /** The lower-cased query is a substring of the lower-cased title or of some lower-cased tag. */
  function MatchesSearch(p: Project, query: string): (r: bool)
    ensures r <==>
      || (exists k :: OccursAt(Lower(p.title), Lower(query), k))
      || (exists i, k :: 0 <= i < |p.tags| && OccursAt(Lower(p.tags[i]), Lower(query), k))
  {
    Includes(Lower(p.title), Lower(query)) || SomeTagIncludes(p.tags, Lower(query))
  }

  /** A project is kept iff both conditions hold. */
  predicate Keep(p: Project, category: string, query: string) {
    MatchesCategory(p, category) && MatchesSearch(p, query)
  }

  /** `a` is `b` with some elements removed, the rest in their original order. */
  ghost predicate IsSublist<T>(a: seq<T>, b: seq<T>)
    decreases |b|
  {
    if a == [] then true
    else if b == [] then false
    else if a[0] == b[0] then IsSublist(a[1..], b[1..])
    else IsSublist(a, b[1..])
  }

  /** `filteredProjects`: the projects satisfying both conditions, in list order. */
  function Filter(ps: seq<Project>, category: string, query: string): (r: seq<Project>)
    ensures IsSublist(r, ps)
    ensures |r| <= |ps|
    ensures forall p :: p in r <==> p in ps && Keep(p, category, query)
    ensures forall p :: multiset(r)[p] == if Keep(p, category, query) then multiset(ps)[p] else 0
    decreases |ps|
  {
    if ps == [] then []
    else
      var rest := Filter(ps[1..], category, query);
      assert forall p :: p in ps <==> p == ps[0] || p in ps[1..];
      assert ps == [ps[0]] + ps[1..];
      assert multiset(ps) == multiset([ps[0]]) + multiset(ps[1..]);
      if Keep(ps[0], category, query) then [ps[0]] + rest
      else
        SublistSkip(rest, ps);
        rest
  }

  /** Putting one more element in front of the longer list keeps a sub-list a sub-list. */
  lemma {:induction false} SublistSkip<T>(a: seq<T>, b: seq<T>)
    requires b != [] && IsSublist(a, b[1..])
    ensures IsSublist(a, b)
    decreases |b|, 0
  {
    if a != [] && a[0] == b[0] {
      SublistDropHead(a, b[1..]);
    }
  }

  /** Removing the first element of a sub-list keeps it a sub-list. */
  lemma {:induction false} SublistDropHead<T>(a: seq<T>, b: seq<T>)
    requires a != [] && IsSublist(a, b)
    ensures IsSublist(a[1..], b)
    decreases |b|, 1
  {
    if a[0] != b[0] {
      SublistDropHead(a, b[1..]);
    }
    SublistSkip(a[1..], b);
  }

  /** The "No projects found" message. */
  function ShowsNoResults(ps: seq<Project>, category: string, query: string): (r: bool)
    ensures r <==> forall p :: p in ps ==> !Keep(p, category, query)
  {
    var f := Filter(ps, category, query);
    assert f != [] ==> f[0] in f;
    |f| == 0
  }

  /** An empty query matches every project: search never removes anything. */
  lemma EmptyQueryMatchesAll(p: Project)
    ensures MatchesSearch(p, "")
  {
    assert Lower("") == "";
    assert OccursAt(Lower(p.title), "", 0);
  }

  /** A filter that keeps everything returns the list unchanged. */
  lemma {:induction false} FilterKeepingAll(ps: seq<Project>, category: string, query: string)
    requires forall p :: p in ps ==> Keep(p, category, query)
    ensures Filter(ps, category, query) == ps
    decreases |ps|
  {
    if ps != [] {
      assert ps[0] in ps;
      assert forall p :: p in ps[1..] ==> p in ps;
      FilterKeepingAll(ps[1..], category, query);
    }
  }

  /** The page's initial selection ('All', empty query) shows all six projects. */
  lemma InitialSelectionShowsAll()
    ensures Filter(AllProjects, AllCategory, "") == AllProjects
    ensures |Filter(AllProjects, AllCategory, "")| == 6
  {
    forall p | p in AllProjects
      ensures Keep(p, AllCategory, "")
    {
      EmptyQueryMatchesAll(p);
    }
    FilterKeepingAll(AllProjects, AllCategory, "");
  }

  /** For a fixed query, picking a category only narrows the 'All' result,
      keeping its order. */
  lemma {:induction false} CategoryNarrowsAll(ps: seq<Project>, category: string, query: string)
    ensures IsSublist(Filter(ps, category, query), Filter(ps, AllCategory, query))
    decreases |ps|
  {
    if ps != [] {
      CategoryNarrowsAll(ps[1..], category, query);
      var a := Filter(ps[1..], category, query);
      var b := Filter(ps[1..], AllCategory, query);
      if Keep(ps[0], category, query) {
        assert Keep(ps[0], AllCategory, query);
        assert ([ps[0]] + a)[1..] == a;
        assert ([ps[0]] + b)[1..] == b;
      } else if Keep(ps[0], AllCategory, query) {
        SublistSkip(a, [ps[0]] + b);
        assert ([ps[0]] + b)[1..] == b;
      }
    }
  }

  /** Searching is case-insensitive in the query as well: a query and its lower-cased
      form select the same projects. */
  lemma QueryCaseInsensitive(ps: seq<Project>, category: string, query: string)
    ensures Filter(ps, category, query) == Filter(ps, category, Lower(query))
  {
    LowerIdempotent(query);
    FilterDependsOnLowerQuery(ps, category, query, Lower(query));
  }

  lemma {:induction false} FilterDependsOnLowerQuery(ps: seq<Project>, category: string, q1: string, q2: string)
    requires Lower(q1) == Lower(q2)
    ensures Filter(ps, category, q1) == Filter(ps, category, q2)
    decreases |ps|
  {
    if ps != [] {
      FilterDependsOnLowerQuery(ps[1..], category, q1, q2);
    }
  }

  /** Filtering an already filtered list again changes nothing. */
  lemma {:induction false} FilterIdempotent(ps: seq<Project>, category: string, query: string)
    ensures Filter(Filter(ps, category, query), category, query) == Filter(ps, category, query)
  {
    var f := Filter(ps, category, query);
    FilterKeepingAll(f, category, query);
  }

  /** A kept project of the list is in the result. */
  lemma KeptIsFound(ps: seq<Project>, p: Project, category: string, query: string)
    requires p in ps && Keep(p, category, query)
    ensures p in Filter(ps, category, query)
  {
  }

  /** A search for a technology, such as "docker", finds the projects tagged with it
      whatever the tag's case. */
  lemma DockerSearchFindsTaggedProjects()
    ensures AllProjects[1] in Filter(AllProjects, AllCategory, "docker")
    ensures AllProjects[5] in Filter(AllProjects, AllCategory, "docker")
  {
    var q := "docker";
    assert Lower(q) == q;
    var p1 := AllProjects[1];
    var p5 := AllProjects[5];
    assert Lower(p1.tags[3]) == q;
    assert Lower(p5.tags[0]) == q;
    assert OccursAt(Lower(p1.tags[3]), Lower(q), 0);
    assert OccursAt(Lower(p5.tags[0]), Lower(q), 0);
    assert Keep(p1, AllCategory, q);
    assert Keep(p5, AllCategory, q);
    KeptIsFound(AllProjects, p1, AllCategory, q);
    KeptIsFound(AllProjects, p5, AllCategory, q);
  }

  /** A query longer than every title and tag finds nothing. */
  lemma OverlongQueryFindsNothing(ps: seq<Project>, category: string, query: string)
    requires forall p :: p in ps ==> |p.title| < |query|
    requires forall p, t :: p in ps && t in p.tags ==> |t| < |query|
    ensures ShowsNoResults(ps, category, query)
  {
    forall p | p in ps
      ensures !MatchesSearch(p, query)
    {
      forall i | 0 <= i < |p.tags|
        ensures |Lower(p.tags[i])| < |Lower(query)|
      {
        assert p.tags[i] in p.tags;
      }
    }
  }
}
