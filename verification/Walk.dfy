// The rule callback's walk from a path up to the nearest registered project.
module Walk {
  import opened Wrappers

  /** The path itself, or what is left of it before one of its slashes. */
  ghost predicate Ancestor(path: string, a: string) {
    a == path || exists k :: 0 <= k < |path| && path[k] == '/' && a == path[..k]
  }

  /** rsplit("/", 1)[0]: everything before the last slash, or the text itself. */
  function Parent(path: string): (p: string)
    ensures p == path || (|p| < |path| && path[..|p|] == p && path[|p|] == '/')
    ensures p == path ==> '/' !in path
    ensures forall k | |p| < k < |path| :: path[k] != '/'
    decreases |path|
  {
    if '/' !in path then path
    else if path[|path| - 1] == '/' then path[..|path| - 1]
    else
      var p := Parent(path[..|path| - 1]);
      p
  }

  lemma ParentIsAncestor(path: string, current: string)
    requires Ancestor(path, current) && '/' in current
    ensures Ancestor(path, Parent(current))
    ensures forall a | Ancestor(path, a) && |a| < |current| :: |a| <= |Parent(current)|
  {
    var p := Parent(current);
    assert current == path[..|current|];
    assert path[|p|] == '/' && p == path[..|p|];
    forall a | Ancestor(path, a) && |a| < |current| ensures |a| <= |p| {
      var k :| 0 <= k < |path| && path[k] == '/' && a == path[..k];
      assert current[k] == '/';
    }
  }

  /**
   * _walk_to_project returns the project registered at the longest ancestor of
   * the path, the root and the empty path aside, or none when no ancestor is
   * registered.
   */
  method WalkToProject<P>(registered: map<string, P>, path: string) returns (r: Option<P>, ghost at: string)
    ensures r.Some? ==> at in registered && registered[at] == r.value && Ancestor(path, at) && at != "" && at != "/"
    ensures r.Some? ==> forall a | Ancestor(path, a) && a in registered && a != "/" :: |a| <= |at|
    ensures r.None? ==> forall a | Ancestor(path, a) && a != "" && a != "/" :: a !in registered
  {
    var current := path;
    while current != "" && current != "/"
      invariant Ancestor(path, current)
      invariant forall a | Ancestor(path, a) && |a| > |current| && a != "/" :: a !in registered
      decreases |current|
    {
      if current in registered {
        SameLength(path, current);
        return Some(registered[current]), current;
      }
      SameLength(path, current);
      var parent := Parent(current);
      if parent == "" || parent == current {
        if parent == current { NoSlashNoAncestor(path, current); } else { ParentIsAncestor(path, current); }
        return None, "";
      }
      ParentIsAncestor(path, current);
      current := parent;
    }
    SameLength(path, current);
    r, at := None, "";
  }

  /** Ancestors are prefixes: one for each length. */
  lemma SameLength(path: string, current: string)
    requires Ancestor(path, current)
    ensures forall a | Ancestor(path, a) && |a| == |current| :: a == current
  {
    forall a | Ancestor(path, a) && |a| == |current| ensures a == current {
      assert a == path[..|a|] && current == path[..|current|];
    }
  }

  lemma NoSlashNoAncestor(path: string, current: string)
    requires Ancestor(path, current) && '/' !in current
    ensures forall a | Ancestor(path, a) :: |a| >= |current|
  {
    forall a | Ancestor(path, a) ensures |a| >= |current| {
      if a != path {
        var k :| 0 <= k < |path| && path[k] == '/' && a == path[..k];
        assert current == path[..|current|];
        assert forall i {:trigger path[i]} | 0 <= i < |current| :: path[i] == current[i] != '/';
      }
    }
  }
}
