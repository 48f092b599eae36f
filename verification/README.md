# Theme toggle and project lookup of a portfolio site

A Dafny model of the two pieces of logic in a small single-page portfolio
site written in React.

- **Theme toggle** (`ThemeToggle`). It keeps an in-memory `isDark` flag, the
  `dark` class on the document root and a `theme` key in local storage. When
  the component mounts, it resolves the flag. A truthy stored string decides,
  and only `"dark"` means dark. Otherwise the system's "prefers dark" hint
  decides. Each click flips the flag, sets or clears the class, and stores
  `"dark"` or `"light"`. Module `Theme` models this as an immutable
  `ThemeState` record. `Init` and `Toggle` are pure transitions. A page session
  is `Load`, then `Init`, then any number of `Toggle`s.
- **Project lookup** (`ProjectPage`). The route's optional `slug` parameter is
  looked up with `Array.prototype.find` over the project catalog. If nothing
  matches, the page says "not found". Otherwise it shows the record, and the
  video player appears only when the record's `video` is truthy. Module
  `ProjectLookup` models the search as the recursive `Find` over a
  `seq<Project>`, which returns an `Option`. The scan `FindScan` and the list
  of matches `MatchesOf` are independent references for it.

The code has no error handling around local storage, so storage failures
are not modelled. Any truthy stored string is read; every string other than
`"dark"` resolves to light. An empty slug matches a record whose slug is
empty. With duplicate slugs the first match wins.

## Model

| member | source | states |
|---|---|---|
| Theme.Encode | src/App.tsx:29-35 | the click handler writes `"dark"` exactly for dark and `"light"` otherwise |
| Theme.ShouldBeDark | src/App.tsx:17-19 | a truthy stored value decides whatever the hint is, and means dark exactly when it is `"dark"`; a missing or empty stored value gives the hint; any other string gives light |
| Theme.Init | src/App.tsx:16-24 | the mount effect sets the flag by the precedence rule, never writes storage, never removes the class, and adds it only when resolving to dark |
| Theme.Apply | src/App.tsx:28-35 | after writing a theme the flag is that theme, the class shows it and storage holds exactly `"dark"` or `"light"` to match |
| Theme.Toggle | src/App.tsx:26-36 | a click negates the flag, leaves the class equal to the new flag and stores the new flag's name |
| Theme.ToggleTimes | src/App.tsx:26-36 | after n clicks the flag has flipped n times, and after at least one click class and storage agree with it |
| Theme.Session | src/App.tsx:14-36 | a session (load with the flag false, mount effect, clicks) has the resolved initial theme flipped once per click; storage is untouched until the first click and synced after it; the class shows the flag throughout |
| Theme.ToggleTwiceRestores | src/App.tsx:27-28 | two clicks restore the flag, and restore the whole state when it was synced |
| Theme.ApplyIdempotent | src/App.tsx:29-35 | writing the same theme twice equals writing it once |
| Theme.ToggleRoundTrip | src/App.tsx:19-34 | after any click, resolving the stored value again gives the new flag for either hint |
| Theme.ReloadReproducesSynced | src/App.tsx:14-24 | a reload from a synced state reproduces that state exactly under either hint |
| Theme.SessionSurvivesReload | src/App.tsx:14-36 | a session with at least one click is reproduced exactly by the next page load, whatever the hint is then |
| Theme.UntouchedSessionFollowsHint | src/App.tsx:17-23 | with empty storage and no clicks the page shows the hint and storage stays empty |
| Theme.DarkHintThenToggle | src/App.tsx:17-34 | with empty storage and a dark hint the page starts dark, and one click gives light with `"light"` stored |
| ProjectLookup.Find | src/pages/ProjectPage.tsx:6 | a found record is in the catalog and its slug equals the parameter; nothing is found exactly when no record matches |
| ProjectLookup.FindIsFirstOfMatches | src/pages/ProjectPage.tsx:6 | the search returns the head of the in-order list of matching records, and nothing when that list is empty |
| ProjectLookup.FindReturnsFirstMatch | src/pages/ProjectPage.tsx:6 | a matching record with no earlier match is the one returned, so later duplicates are never returned |
| ProjectLookup.FoundIsFirstMatch | src/pages/ProjectPage.tsx:6 | whatever is found is at a position with no earlier match |
| ProjectLookup.UniqueSlugFindsRecord | src/pages/ProjectPage.tsx:6 | in a catalog with unique slugs every record is found by its own slug |
| ProjectLookup.FindScan | src/pages/ProjectPage.tsx:6 | a left-to-right scan that stops at the first match returns the same result as the search |
| ProjectLookup.Render | src/pages/ProjectPage.tsx:5-35 | the page says "not found" exactly when no record matches; otherwise it shows the first matching record in catalog order, and the video only when its `video` is truthy |
| ProjectLookup.NotFoundCases | src/pages/ProjectPage.tsx:5-13 | an empty catalog or an absent route parameter gives "not found" |
| ProjectLookup.FeaturedScenario | src/App.tsx:110-123 | with the two featured slugs, `turnflow` finds the second record and an unknown slug finds nothing |

## Left out

- JSX markup, class strings, icons, copy and external links are presentation only and are not modelled.
- React's `useState`/`useEffect` scheduling and re-renders are not modelled. A session is the sequence load, mount effect, clicks.
- The browser APIs (local storage, `matchMedia`, the root class list) are not modelled. They become record fields and the `prefersDark` input.
- Storage failures are not modelled, because the code does not handle them.
- Route matching, and how the `/projects/${slug}` link becomes the route parameter, belong to the router library and are not modelled.
- The catalog data file `assets/projects.json` is not part of this model. The catalog is a parameter.
- The featured card list (src/App.tsx:110-123) is used only for its two slugs in a scenario. Its images and blurbs are presentation only.
- Theme.Load — the document root is assumed to have no `dark` class before the mount effect runs; the page's `index.html`, which sets the root's initial classes, is not part of this model. A root that already has the class keeps it, because the mount effect never removes it.
