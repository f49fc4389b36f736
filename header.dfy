/** The header's navigation links and which of them is highlighted. */
module Header {
  import opened Text

  datatype NavLink = NavLink(name: string, href: string)

  const Navigation: seq<NavLink> := [
    NavLink("Home", "/"),
    NavLink("Quiz", "/quiz"),
    NavLink("Leaderboard", "/leaderboard"),
    NavLink("Daily Shlok", "/shlok"),
    NavLink("About", "/about"),
    NavLink("Contact", "/contact")
  ]

  const Root := "/"

  /** `isActive(path)` on the current `pathname`. */
  function IsActive(pathname: string, path: string): bool
  {
    if path == Root && pathname == Root then true
    else path != Root && StartsWith(pathname, path)
  }

  /** "/" is highlighted exactly on "/"; any other link exactly when the pathname
      starts with it. */
  lemma ActiveCases(pathname: string, path: string)
    ensures IsActive(pathname, Root) <==> pathname == Root
    ensures path != Root ==> (IsActive(pathname, path) <==> StartsWith(pathname, path))
  {
  }

  /** The prefix test ignores segment boundaries. */
  lemma PrefixIgnoresSegments()
    ensures IsActive("/quiz/5", "/quiz")
    ensures IsActive("/quizzes", "/quiz")
    ensures !IsActive("/", "/quiz")
  {
    assert "/quiz/5"[..5] == "/quiz";
    assert "/quizzes"[..5] == "/quiz";
  }

  /** Two prefixes of one string: the shorter is a prefix of the longer. */
  lemma PrefixesNest(s: string, a: string, b: string)
    requires StartsWith(s, a) && StartsWith(s, b) && |a| <= |b|
    ensures StartsWith(b, a)
  {
    assert b[..|a|] == s[..|b|][..|a|];
  }

  /** No navigation path other than "/" begins with another one. */
  lemma NavigationPathsUnrelated(i: int, j: int)
    requires 0 < i < |Navigation| && 0 < j < |Navigation| && i != j
    ensures !StartsWith(Navigation[j].href, Navigation[i].href)
  {
    var second := "?qlsac";
    assert forall k :: 0 < k < |Navigation| ==> |Navigation[k].href| >= 2 && Navigation[k].href[1] == second[k];
    assert i == 1 || i == 2 || i == 3 || i == 4 || i == 5;
    assert j == 1 || j == 2 || j == 3 || j == 4 || j == 5;
    assert second[i] != second[j];
  }

  /** On any page at most one navigation link is highlighted. */
  lemma AtMostOneActive(pathname: string, i: int, j: int)
    requires 0 <= i < |Navigation| && 0 <= j < |Navigation|
    requires IsActive(pathname, Navigation[i].href) && IsActive(pathname, Navigation[j].href)
    ensures i == j
  {
    var a, b := Navigation[i].href, Navigation[j].href;
    if i != j && i != 0 && j != 0 {
      if |a| <= |b| {
        PrefixesNest(pathname, a, b);
        NavigationPathsUnrelated(i, j);
      } else {
        PrefixesNest(pathname, b, a);
        NavigationPathsUnrelated(j, i);
      }
    }
  }
}
