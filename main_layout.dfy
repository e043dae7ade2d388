/**
 * The navigation bar of the application frame (the `MainLayout`
 * component): a tab is highlighted when the current location is its path or
 * lies below it.
 */
module MainLayout {
  import opened Text

  /** The paths of the navigation tabs, in the order they are shown. */
  const NavPaths: seq<string> := ["/search-strategy", "/review", "/reporting", "/profile"]

  /** isActive: the location is `path` itself or a path below it. */
  predicate IsActive(pathname: string, path: string)
  {
    pathname == path || StartsWith(pathname, path + "/")
  }

  /** Every location below a path activates it. */
  lemma BelowIsActive(path: string, rest: string)
    ensures IsActive(path + "/" + rest, path)
  {
    assert (path + "/" + rest)[..|path + "/"|] == path + "/";
  }

  /** A location that continues a path with anything but `/` does not activate it (`/reviewer` is not `/review`). */
  lemma SiblingNotActive(path: string, rest: string)
    requires rest != [] && rest[0] != '/'
    ensures !IsActive(path + rest, path)
  {
    assert (path + rest)[|path|] == rest[0];
  }

  /** A location shorter than a path, such as a proper prefix of it, does not activate it. */
  lemma ShorterNotActive(pathname: string, path: string)
    requires |pathname| < |path|
    ensures !IsActive(pathname, path)
  {
  }

  /** Two paths a location activates are equal, or the longer lies below the shorter. */
  lemma {:induction false} ActivePathsNest(pathname: string, p: string, q: string)
    requires IsActive(pathname, p) && IsActive(pathname, q) && |p| <= |q|
    ensures q == p || StartsWith(q, p + "/")
  {
    if pathname == p {
      assert q == p;
    } else if pathname == q {
    } else {
      assert pathname[..|p| + 1] == p + "/" && pathname[..|q| + 1] == q + "/";
      if |p| < |q| {
        assert q[..|p| + 1] == pathname[..|p| + 1];
      } else {
        assert p == pathname[..|p|] == q;
      }
    }
  }

  /** A string differing from `t` at an index of both does not start with `t`. */
  lemma NotPrefixAt(s: string, t: string, k: nat)
    requires k < |s| && k < |t| && s[k] != t[k]
    ensures !StartsWith(s, t)
  {
    if |t| <= |s| {
      assert s[..|t|][k] == s[k];
    }
  }

  /** No tab's path lies below another's. */
  lemma TabsApart(a: nat, b: nat)
    requires a < |NavPaths| && b < |NavPaths| && a != b
    ensures NavPaths[a] != NavPaths[b] && !StartsWith(NavPaths[a], NavPaths[b] + "/")
  {
    var k := if (a == 1 && b == 2) || (a == 2 && b == 1) then 3 else 1;
    NotPrefixAt(NavPaths[a], NavPaths[b] + "/", k);
  }

  /** At most one tab is highlighted at a time. */
  lemma AtMostOneTabActive(pathname: string, i: nat, j: nat)
    requires i < j < |NavPaths|
    ensures !(IsActive(pathname, NavPaths[i]) && IsActive(pathname, NavPaths[j]))
  {
    var p, q := NavPaths[i], NavPaths[j];
    TabsApart(i, j);
    TabsApart(j, i);
    if IsActive(pathname, p) && IsActive(pathname, q) {
      if |p| <= |q| {
        ActivePathsNest(pathname, p, q);
      } else {
        ActivePathsNest(pathname, q, p);
      }
    }
  }
}
