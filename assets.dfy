/** The project's asset registry (src/lib/assets.ts): a nested record of named
    groups whose leaves are URLs, and `getAsset`, which follows a dotted path
    through it. */
module Assets {
  import opened Optional

  /** A node of the registry: a URL, or a group of named child nodes. */
  datatype AssetNode = Leaf(url: string) | Group(children: map<string, AssetNode>)

  /** The registry. The two bundled images get URLs chosen by the bundler and
      the two icons live under the public base URL read from the environment,
      so all three are parameters. */
  function Registry(codetalesLogo: string, reactLogo: string, baseUrl: string): (root: AssetNode)
    ensures root.Group? && root.children.Keys == {"images", "icons"}
  {
    Group(map[
      "images" := Group(map["codetalesLogo" := Leaf(codetalesLogo), "reactLogo" := Leaf(reactLogo)]),
      "icons" := Group(map["codetalesIco" := Leaf(baseUrl + "codetales.ico"), "viteLogo" := Leaf(baseUrl + "vite.svg")])
    ])
  }

  // ---------------------------------------------------------------------------
  // String.prototype.split('.')

  /** `s.split('.')`: the pieces of `s` between dots, always at least one
      (the empty string splits to `[""]`). */
  function Split(s: string): (parts: seq<string>)
    ensures |parts| >= 1
    ensures forall i, j :: 0 <= i < |parts| && 0 <= j < |parts[i]| ==> parts[i][j] != '.'
  {
    if s == [] then [""]
    else if s[0] == '.' then [""] + Split(s[1..])
    else
      var rest := Split(s[1..]);
      [[s[0]] + rest[0]] + rest[1..]
  }

  /** `parts.join('.')`. */
  function Join(parts: seq<string>): (s: string)
    requires |parts| >= 1
  {
    if |parts| == 1 then parts[0] else parts[0] + "." + Join(parts[1..])
  }

  /** Joining the pieces again gives back the path: no character is lost or
      invented by the split. */
  lemma {:induction false} JoinSplit(s: string)
    ensures Join(Split(s)) == s
  {
    if s == [] {
    } else if s[0] == '.' {
      JoinSplit(s[1..]);
      assert s == "." + s[1..];
    } else {
      var rest := Split(s[1..]);
      JoinSplit(s[1..]);
      if |rest| == 1 {
        assert s == [s[0]] + s[1..];
      } else {
        assert Join(Split(s)) == [s[0]] + rest[0] + "." + Join(rest[1..]);
        assert s == [s[0]] + s[1..];
      }
    }
  }

  /** A path without dots is a single segment. */
  lemma {:induction false} SplitWithoutDot(s: string)
    requires forall i :: 0 <= i < |s| ==> s[i] != '.'
    ensures Split(s) == [s]
  {
    if s != [] {
      SplitWithoutDot(s[1..]);
      assert s == [s[0]] + s[1..];
    }
  }

  /** Splitting a path made of two paths joined by a dot gives the pieces of
      the first followed by the pieces of the second. */
  lemma {:induction false} SplitAtDot(a: string, b: string)
    ensures Split(a + "." + b) == Split(a) + Split(b)
  {
    if a == [] {
      assert a + "." + b == "." + b;
      assert ("." + b)[1..] == b;
    } else {
      assert (a + "." + b)[1..] == a[1..] + "." + b;
      SplitAtDot(a[1..], b);
      if a[0] == '.' {
      } else {
        var rest := Split(a[1..] + "." + b);
        assert rest == Split(a[1..]) + Split(b);
      }
    }
  }

  // ---------------------------------------------------------------------------
  // getAsset

  /** The node reached from `node` by following `path` segment by segment, or
      None as soon as a segment names no child of the current node. */
  function Lookup(node: AssetNode, path: seq<string>): (r: Option<AssetNode>)
    ensures path == [] ==> r == Some(node)
    ensures path != [] && !(node.Group? && path[0] in node.children) ==> r == None
    decreases |path|
  {
    if path == [] then Some(node)
    else match Child(node, path[0])
      case None => None
      case Some(next) => Lookup(next, path[1..])
  }

  /** The property `key` of `node`, undefined when it has none. */
  function Child(node: AssetNode, key: string): (r: Option<AssetNode>)
    ensures r.Some? <==> node.Group? && key in node.children
  {
    match node
    case Group(children) => if key in children then Some(children[key]) else None
    case Leaf(_) => None
  }

  /** `getAsset(path)` over the registry `root`: walk the dot-separated
      segments, returning undefined at the first segment the current node does
      not have; a path that ends at a group returns the group itself. */
  method GetAsset(root: AssetNode, path: string) returns (result: Option<AssetNode>)
    ensures result == Lookup(root, Split(path))
  {
    var parts := Split(path);
    var node := root;
    var i := 0;
    while i < |parts|
      invariant 0 <= i <= |parts|
      invariant Lookup(root, parts) == Lookup(node, parts[i..])
    {
      var next := Child(node, parts[i]);
      if next.None? {
        return None;
      }
      node := next.value;
      i := i + 1;
    }
    return Some(node);
  }

  /** Lookup composes: following `p + q` is following `p`, then `q` from the
      node reached; a missing node along `p` stays missing. */
  lemma {:induction false} LookupAppend(node: AssetNode, p: seq<string>, q: seq<string>)
    ensures Lookup(node, p + q) == match Lookup(node, p)
                                  case None => None
                                  case Some(mid) => Lookup(mid, q)
  {
    if p == [] {
      assert p + q == q;
    } else {
      assert (p + q)[0] == p[0];
      assert (p + q)[1..] == p[1..] + q;
      match Child(node, p[0])
      case None =>
      case Some(next) => LookupAppend(next, p[1..], q);
    }
  }

  /** The dotted form of composition: the asset at "a.b" is the asset at "b"
      inside the asset at "a". */
  lemma DottedPathComposes(root: AssetNode, a: string, b: string)
    ensures Lookup(root, Split(a + "." + b)) == match Lookup(root, Split(a))
                                                case None => None
                                                case Some(mid) => Lookup(mid, Split(b))
  {
    SplitAtDot(a, b);
    LookupAppend(root, Split(a), Split(b));
  }

  /** The documented example: the path 'images.codetalesLogo' yields the
      bundled logo's URL. (The segments are passed as parameters equal to the
      literals so that the verifier does not evaluate the split character by
      character.) */
  lemma LogoPathExample(codetalesLogo: string, reactLogo: string, baseUrl: string, group: string, key: string)
    requires group == "images" && key == "codetalesLogo"
    ensures Lookup(Registry(codetalesLogo, reactLogo, baseUrl), Split(group + "." + key)) == Some(Leaf(codetalesLogo))
  {
    var root := Registry(codetalesLogo, reactLogo, baseUrl);
    var images := root.children[group];
    assert images == Group(map["codetalesLogo" := Leaf(codetalesLogo), "reactLogo" := Leaf(reactLogo)]);
    TwoSegmentPath(root, group, key);
  }

  /** A path of two dot-free segments looks up the second inside the first. */
  lemma TwoSegmentPath(root: AssetNode, group: string, key: string)
    requires forall i :: 0 <= i < |group| ==> group[i] != '.'
    requires forall i :: 0 <= i < |key| ==> key[i] != '.'
    ensures Lookup(root, Split(group + "." + key)) == match Child(root, group)
                                                     case None => None
                                                     case Some(g) => Child(g, key)
  {
    SplitWithoutDot(group);
    SplitWithoutDot(key);
    SplitAtDot(group, key);
    LookupAppend(root, [group], [key]);
    LookupOne(root, group);
    match Child(root, group)
    case None =>
    case Some(g) => LookupOne(g, key);
  }

  /** A one-segment path is a single property access. */
  lemma LookupOne(node: AssetNode, key: string)
    ensures Lookup(node, [key]) == Child(node, key)
  {
    assert [key][1..] == [];
  }

  /** A path that stops at a group yields the group node itself, not a URL:
      'images' yields the images group. */
  lemma GroupPathExample(codetalesLogo: string, reactLogo: string, baseUrl: string, group: string)
    requires group == "images"
    ensures Lookup(Registry(codetalesLogo, reactLogo, baseUrl), Split(group)) == Some(Registry(codetalesLogo, reactLogo, baseUrl).children[group])
    ensures Registry(codetalesLogo, reactLogo, baseUrl).children[group].Group?
  {
    var root := Registry(codetalesLogo, reactLogo, baseUrl);
    SplitWithoutDot(group);
    var path := [group];
    assert Lookup(root, path) == Lookup(root.children[group], path[1..]);
  }

  /** A path whose first segment is not a top-level group name yields
      undefined, whatever follows; in particular the empty path does, since it
      splits to the single empty segment. */
  lemma UnknownFirstSegment(root: AssetNode, path: string)
    requires root.Group? && Split(path)[0] !in root.children
    ensures Lookup(root, Split(path)) == None
  {
  }

  lemma EmptyPathIsUndefined(codetalesLogo: string, reactLogo: string, baseUrl: string)
    ensures Lookup(Registry(codetalesLogo, reactLogo, baseUrl), Split("")) == None
  {
    var root := Registry(codetalesLogo, reactLogo, baseUrl);
    assert Split("") == [""];
    assert "" !in root.children;
  }
}
