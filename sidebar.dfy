/** The sidebar's navigation list and its rule for highlighting the current page. */
module Sidebar {
  import opened Text

  datatype NavItem = NavItem(to: string, caption: string)

  const NavItems: seq<NavItem> := [
    NavItem("/", "Dashboard"),
    NavItem("/projects", "Projects"),
    NavItem("/documents", "Documents"),
    NavItem("/snippets", "Snippets"),
    NavItem("/media", "Media"),
    NavItem("/ai-hub", "AI Hub"),
    NavItem("/settings", "Settings")
  ]

  /** The root item is active only on `/` itself; any other item whenever the path
      starts with its target. */
  predicate IsActive(to: string, pathname: string) {
    if to == "/" then pathname == "/" else StartsWith(pathname, to)
  }

  /** Two prefixes of one string: the shorter is a prefix of the longer. */
  lemma PrefixesNest(s: string, p: string, q: string)
    requires StartsWith(s, p) && StartsWith(s, q) && |p| <= |q|
    ensures StartsWith(q, p)
  {
    assert q[..|p|] == s[..|q|][..|p|];
  }

  /** No target other than the root is a prefix of another target. */
  lemma TargetsDoNotNest(i: nat, j: nat)
    requires 1 <= i < |NavItems| && 1 <= j < |NavItems| && i != j
    ensures !StartsWith(NavItems[j].to, NavItems[i].to)
  {
    var p := NavItems[i].to;
    var q := NavItems[j].to;
    assert p[1] != q[1] || p[2] != q[2];
  }

  /** For any path at most one item is active. */
  lemma AtMostOneActive(pathname: string, i: nat, j: nat)
    requires i < |NavItems| && j < |NavItems|
    requires IsActive(NavItems[i].to, pathname) && IsActive(NavItems[j].to, pathname)
    ensures i == j
  {
    if i != j {
      if i == 0 || j == 0 {
        assert false;
      }
      var p := NavItems[i].to;
      var q := NavItems[j].to;
      if |p| <= |q| {
        PrefixesNest(pathname, p, q);
        TargetsDoNotNest(i, j);
      } else {
        PrefixesNest(pathname, q, p);
        TargetsDoNotNest(j, i);
      }
    }
  }

  /** A project's detail page `/projects/<id>` highlights the Projects item, and
      only that item. */
  lemma DetailActivatesProjects(id: string, i: nat)
    requires i < |NavItems|
    ensures NavItems[1].caption == "Projects"
    ensures IsActive(NavItems[i].to, "/projects/" + id) <==> i == 1
  {
    var path := "/projects/" + id;
    assert path[..|"/projects"|] == "/projects";
    assert IsActive(NavItems[1].to, path);
    if IsActive(NavItems[i].to, path) {
      AtMostOneActive(path, i, 1);
    }
  }
}
