/**
 Model of the project detail page's lookup: the route's `slug` parameter
 is matched against a catalog of project records, and the page shows
 either the first record with that slug or a "not found" message.

 The catalog's contents come from a data file that is not part of this
 model, so the catalog is a parameter.  The route parameter may be
 absent (`undefined`), which is `None` here.
 */
module ProjectLookup {
  import opened Wrappers

  /** One catalog record.  `video` is optional in the data. */
  datatype Project = Project(
    slug: string,
    title: string,
    blurb: string,
    long: string,
    image: string,
    video: Option<string>
  )

  /** What the detail page renders. */
  datatype View =
    | NotFoundView
    | DetailView(project: Project, showVideo: bool)

  /** Strict equality between a record's slug and the route parameter:
      an absent parameter equals no string. */
  predicate Matches(p: Project, slug: Option<string>) {
    slug.Some? && p.slug == slug.value
  }

  /** No record of the catalog matches. */
  predicate NoMatch(catalog: seq<Project>, slug: Option<string>) {
    forall i :: 0 <= i < |catalog| ==> !Matches(catalog[i], slug)
  }

  /** Position `i` holds a match and no earlier position does. */
  predicate FirstMatchAt(catalog: seq<Project>, slug: Option<string>, i: int) {
    && 0 <= i < |catalog|
    && Matches(catalog[i], slug)
    && NoMatch(catalog[..i], slug)
  }

  /** `catalog.find(p => p.slug === slug)`: the first record whose slug
      equals the parameter, or None. */
  function Find(catalog: seq<Project>, slug: Option<string>): (r: Option<Project>)
    ensures r.Some? ==> r.value in catalog && Matches(r.value, slug)
    ensures r.Some? ==> r.value.slug == slug.value
    ensures r.None? <==> NoMatch(catalog, slug)
  {
    if |catalog| == 0 then None
    else if Matches(catalog[0], slug) then Some(catalog[0])
    else Find(catalog[1..], slug)
  }

  /** The records that match, in catalog order: an independent reference
      for the search. */
  function MatchesOf(catalog: seq<Project>, slug: Option<string>): seq<Project>
  {
    if |catalog| == 0 then []
    else if Matches(catalog[0], slug) then [catalog[0]] + MatchesOf(catalog[1..], slug)
    else MatchesOf(catalog[1..], slug)
  }

  /** The search returns the head of the list of matches, and nothing when
      that list is empty. */
  lemma {:induction false} FindIsFirstOfMatches(catalog: seq<Project>, slug: Option<string>)
    ensures Find(catalog, slug) ==
            (var m := MatchesOf(catalog, slug); if |m| == 0 then None else Some(m[0]))
  {
    if |catalog| > 0 && !Matches(catalog[0], slug) {
      FindIsFirstOfMatches(catalog[1..], slug);
    }
  }

  /** A record preceded by no match is the one returned: later records
      with the same slug are never returned. */
  lemma {:induction false} FindReturnsFirstMatch(catalog: seq<Project>, slug: Option<string>, i: int)
    requires FirstMatchAt(catalog, slug, i)
    ensures Find(catalog, slug) == Some(catalog[i])
  {
    if i > 0 {
      assert !Matches(catalog[..i][0], slug);
      assert catalog[1..][..i - 1] == catalog[..i][1..];
      FindReturnsFirstMatch(catalog[1..], slug, i - 1);
    }
  }

  /** Conversely, whatever is found sits at a first-match position. */
  lemma {:induction false} FoundIsFirstMatch(catalog: seq<Project>, slug: Option<string>)
    requires Find(catalog, slug).Some?
    ensures exists i :: FirstMatchAt(catalog, slug, i) && catalog[i] == Find(catalog, slug).value
  {
    if Matches(catalog[0], slug) {
      assert FirstMatchAt(catalog, slug, 0);
    } else {
      FoundIsFirstMatch(catalog[1..], slug);
      var i :| FirstMatchAt(catalog[1..], slug, i) && catalog[1..][i] == Find(catalog[1..], slug).value;
      assert catalog[..i + 1] == [catalog[0]] + catalog[1..][..i];
      assert FirstMatchAt(catalog, slug, i + 1);
    }
  }

  /** No two records share a slug. */
  predicate UniqueSlugs(catalog: seq<Project>) {
    forall i, j :: 0 <= i < j < |catalog| ==> catalog[i].slug != catalog[j].slug
  }

  /** In a catalog with unique slugs, every record is found by its own slug. */
  lemma {:induction false} UniqueSlugFindsRecord(catalog: seq<Project>, i: int)
    requires UniqueSlugs(catalog)
    requires 0 <= i < |catalog|
    ensures Find(catalog, Some(catalog[i].slug)) == Some(catalog[i])
  {
    var slug := Some(catalog[i].slug);
    forall j | 0 <= j < i
      ensures !Matches(catalog[..i][j], slug)
    {
      assert catalog[..i][j] == catalog[j];
    }
    FindReturnsFirstMatch(catalog, slug, i);
  }

  /** The search as the array method performs it: a left-to-right scan
      that stops at the first match. */
  method FindScan(catalog: seq<Project>, slug: Option<string>) returns (r: Option<Project>)
    ensures r == Find(catalog, slug)
  {
    var k := 0;
    while k < |catalog|
      invariant 0 <= k <= |catalog|
      invariant Find(catalog[k..], slug) == Find(catalog, slug)
    {
      if Matches(catalog[k], slug) {
        return Some(catalog[k]);
      }
      assert catalog[k..][1..] == catalog[k + 1..];
      k := k + 1;
    }
    return None;
  }

  /** The detail page: "not found" when the search fails, otherwise the
      record, with the video player only when its `video` is truthy. */
  function Render(catalog: seq<Project>, slug: Option<string>): (v: View)
    ensures v.NotFoundView? <==> NoMatch(catalog, slug)
    ensures v.DetailView? ==> v.project in catalog && Matches(v.project, slug)
    // with duplicate slugs, the record shown is the first match
    ensures v.DetailView? ==> exists i :: FirstMatchAt(catalog, slug, i) && v.project == catalog[i]
    ensures v.DetailView? ==>
              (v.showVideo <==> v.project.video.Some? && v.project.video.value != "")
  {
    match Find(catalog, slug)
    case None => NotFoundView
    case Some(p) =>
      FoundIsFirstMatch(catalog, slug);
      DetailView(p, p.video.Some? && p.video.value != "")
  }

  /** An empty catalog and an absent route parameter both give "not found". */
  lemma NotFoundCases(catalog: seq<Project>, slug: Option<string>)
    ensures Find([], slug) == None
    ensures Find(catalog, None) == None
    ensures Render(catalog, None) == NotFoundView
  {
  }

  /** Scenario with the two featured slugs: the second is found by its
      slug, an unknown slug is not found. */
  lemma FeaturedScenario(canvaKeys: Project, turnFlow: Project)
    requires canvaKeys.slug == "canvakeys" && turnFlow.slug == "turnflow"
    ensures Find([canvaKeys, turnFlow], Some("turnflow")) == Some(turnFlow)
    ensures Find([canvaKeys, turnFlow], Some("missing")) == None
  {
  }
}
