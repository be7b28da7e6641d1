/**
 * The coordinate store and the object that owns the session to it.
 *
 * The coordination service's tree is a map from paths to nodes, closed under
 * parents. A coordinate (cell, user, service, instance) lives at
 * /cn/<cell>/<user>/<service>/<instance>, with a `config` child holding the
 * coordinate's configuration and a `status` child while it is claimed.
 *
 * `ZkCloudname` holds the current session, the supervisor's counter and
 * closed flag, the latch released by the first connection, and the users
 * told about the session's changes.
 */
module Cloudname {
  import opened Wrappers
  import opened Numbers
  import opened Supervision
  import Fanout

  // ---------------------------------------------------------------------------
  // The tree

  type Path = seq<string>

  /** A node: its data (null data is None) and its data version. */
  datatype ZNode = ZNode(data: Option<string>, version: nat)

  /** A node as creation leaves it: no data, version 0. */
  const EMPTY_NODE: ZNode := ZNode(None, 0)

  /** The root exists and every other node's parent exists. */
  ghost predicate TreeOk(tree: map<Path, ZNode>) {
    && [] in tree
    && forall p :: p in tree && p != [] ==> p[..|p| - 1] in tree
  }

  /** `p` has at least one child in the tree. */
  predicate HasChildren(tree: map<Path, ZNode>, p: Path) {
    exists q :: q in tree && |q| == |p| + 1 && q[..|p|] == p
  }

  /** Rewriting an existing node's data keeps the tree closed under parents. */
  lemma UpdateKeepsTreeOk(tree: map<Path, ZNode>, p: Path, node: ZNode)
    requires TreeOk(tree) && p in tree
    ensures TreeOk(tree[p := node])
  {
  }

  /** `q` is one of the first `n` non-empty prefixes of `path`. */
  predicate IsPrefixUpTo(q: Path, path: Path, n: nat) {
    1 <= |q| <= n && |q| <= |path| && q == path[..|q|]
  }

  // ---------------------------------------------------------------------------
  // Coordinates and their paths

  datatype Coordinate = Coordinate(cell: string, user: string, service: string, instance: int)

  /** /cn/<cell>/<user>/<service>/<instance>, the instance written in decimal. */
  function CoordinateRoot(c: Coordinate): (p: Path)
    ensures |p| == 5
  {
    ["cn", c.cell, c.user, c.service, IntToString(c.instance)]
  }

  /** The `config` child of the coordinate's root. */
  function ConfigPath(c: Coordinate): (p: Path)
    ensures |p| == 6 && p[..5] == CoordinateRoot(c) && p[5] == "config"
  {
    CoordinateRoot(c) + ["config"]
  }

  /** The `status` child of the coordinate's root. */
  function StatusPath(c: Coordinate): (p: Path)
    ensures |p| == 6 && p[..5] == CoordinateRoot(c) && p[5] == "status"
  {
    CoordinateRoot(c) + ["status"]
  }

  /** Different coordinates live at different paths, and a coordinate's config and status nodes differ. */
  lemma CoordinatePathsDistinct(a: Coordinate, b: Coordinate)
    ensures CoordinateRoot(a) == CoordinateRoot(b) ==> a == b
    ensures ConfigPath(a) != StatusPath(b)
  {
    if CoordinateRoot(a) == CoordinateRoot(b) {
      assert CoordinateRoot(a)[4] == CoordinateRoot(b)[4];
      IntToStringInjective(a.instance, b.instance);
    }
    assert ConfigPath(a)[5] != StatusPath(b)[5];
  }

  // ---------------------------------------------------------------------------
  // The store helpers: making a path, deleting upwards

  /** `Util.mkdir`: the first `n` prefixes of `path` that are missing are created, shortest first. */
  function Mkdirs(tree: map<Path, ZNode>, path: Path, n: nat): map<Path, ZNode>
    requires n <= |path|
    decreases n
  {
    if n == 0 then tree
    else
      var t := Mkdirs(tree, path, n - 1);
      if path[..n] in t then t else t[path[..n] := EMPTY_NODE]
  }

  /**
   * After making a path all its prefixes exist, the nodes that existed are
   * untouched, and the only new nodes are empty prefixes of the path.
   */
  lemma MkdirsMeaning(tree: map<Path, ZNode>, path: Path, n: nat)
    requires n <= |path|
    ensures var t := Mkdirs(tree, path, n);
      && (forall k :: 1 <= k <= n ==> path[..k] in t)
      && (forall q :: q in tree ==> q in t && t[q] == tree[q])
      && (forall q :: q in t && q !in tree ==> IsPrefixUpTo(q, path, n) && t[q] == EMPTY_NODE)
      && (TreeOk(tree) ==> TreeOk(t))
  {
    MkdirsMakesPrefixes(tree, path, n);
    MkdirsKeepsNodes(tree, path, n);
    MkdirsAddsOnlyPrefixes(tree, path, n);
    if TreeOk(tree) {
      MkdirsKeepsTreeOk(tree, path, n);
    }
  }

  lemma {:induction false} MkdirsMakesPrefixes(tree: map<Path, ZNode>, path: Path, n: nat)
    requires n <= |path|
    ensures forall k :: 1 <= k <= n ==> path[..k] in Mkdirs(tree, path, n)
    decreases n
  {
    if n > 0 {
      MkdirsMakesPrefixes(tree, path, n - 1);
    }
  }

  lemma {:induction false} MkdirsKeepsNodes(tree: map<Path, ZNode>, path: Path, n: nat)
    requires n <= |path|
    ensures forall q :: q in tree ==> q in Mkdirs(tree, path, n) && Mkdirs(tree, path, n)[q] == tree[q]
    decreases n
  {
    if n > 0 {
      MkdirsKeepsNodes(tree, path, n - 1);
    }
  }

  lemma {:induction false} MkdirsAddsOnlyPrefixes(tree: map<Path, ZNode>, path: Path, n: nat)
    requires n <= |path|
    ensures forall q :: q in Mkdirs(tree, path, n) && q !in tree ==>
      IsPrefixUpTo(q, path, n) && Mkdirs(tree, path, n)[q] == EMPTY_NODE
    decreases n
  {
    if n > 0 {
      MkdirsAddsOnlyPrefixes(tree, path, n - 1);
    }
  }

  lemma {:induction false} MkdirsKeepsTreeOk(tree: map<Path, ZNode>, path: Path, n: nat)
    requires n <= |path| && TreeOk(tree)
    ensures TreeOk(Mkdirs(tree, path, n))
    decreases n
  {
    if n > 0 {
      MkdirsKeepsTreeOk(tree, path, n - 1);
      MkdirsMakesPrefixes(tree, path, n - 1);
      MkdirsKeepsNodes(tree, path, n - 1);
      assert path[..n][..n - 1] == path[..n - 1];
    }
  }

  /**
   * `Util.deletePathKeepRootLevels`: starting at `path`, delete the node
   * and go on with its parent, until a node is missing, still has children,
   * or lies within the top `keep` levels. Returns the tree and the count.
   */
  function DeleteUpward(tree: map<Path, ZNode>, path: Path, keep: nat): (map<Path, ZNode>, nat)
    decreases |path|
  {
    if |path| <= keep || path !in tree || HasChildren(tree, path) then (tree, 0)
    else
      var rest := DeleteUpward(tree - {path}, path[..|path| - 1], keep);
      (rest.0, rest.1 + 1)
  }

  /**
   * Deleting upwards removes exactly the `n` deepest prefixes of the path
   * (the path itself first), never one within the top `keep` levels, leaves
   * every other node as it was, and keeps the tree closed under parents.
   */
  lemma DeleteUpwardMeaning(tree: map<Path, ZNode>, path: Path, keep: nat)
    ensures var (t, n) := DeleteUpward(tree, path, keep);
      && (n > 0 ==> keep + n <= |path|)
      && (forall q :: q in t ==> q in tree && t[q] == tree[q])
      && (forall q :: q in tree ==> (q in t <==> !(|path| - n < |q| <= |path| && q == path[..|q|])))
      && (TreeOk(tree) ==> TreeOk(t))
  {
    DeleteUpwardRemoves(tree, path, keep);
    if TreeOk(tree) {
      DeleteUpwardKeepsTreeOk(tree, path, keep);
    }
  }

  lemma {:induction false} DeleteUpwardRemoves(tree: map<Path, ZNode>, path: Path, keep: nat)
    ensures var (t, n) := DeleteUpward(tree, path, keep);
      && (n > 0 ==> keep + n <= |path|)
      && (forall q :: q in t ==> q in tree && t[q] == tree[q])
      && (forall q :: q in tree ==> (q in t <==> !(|path| - n < |q| <= |path| && q == path[..|q|])))
    decreases |path|
  {
    if !(|path| <= keep || path !in tree || HasChildren(tree, path)) {
      var smaller := tree - {path};
      var parent := path[..|path| - 1];
      DeleteUpwardRemoves(smaller, parent, keep);
      var (t, m) := DeleteUpward(smaller, parent, keep);
      forall q | q in tree
        ensures q in t <==> !(|path| - (m + 1) < |q| <= |path| && q == path[..|q|])
      {
        if q == path {
          assert q !in smaller;
          assert path[..|path|] == path;
        } else {
          assert q in smaller;
          if |q| <= |parent| {
            assert parent[..|q|] == path[..|q|];
          } else if |q| == |path| {
            assert path[..|q|] == path;
          }
        }
      }
    }
  }

  lemma {:induction false} DeleteUpwardKeepsTreeOk(tree: map<Path, ZNode>, path: Path, keep: nat)
    requires TreeOk(tree)
    ensures TreeOk(DeleteUpward(tree, path, keep).0)
    decreases |path|
  {
    if !(|path| <= keep || path !in tree || HasChildren(tree, path)) {
      var smaller := tree - {path};
      forall q | q in smaller && q != []
        ensures q[..|q| - 1] in smaller
      {
        assert q[..|q| - 1] != path by {
          if |q| - 1 == |path| {
            assert q[..|path|] == q[..|q| - 1];
          }
        }
      }
      DeleteUpwardKeepsTreeOk(smaller, path[..|path| - 1], keep);
    }
  }

  // ---------------------------------------------------------------------------
  // The coordinate operations, on a tree reached through a usable session

  datatype StoreError =
    | NoSession            // there is no session handle at all
    | ConnectionLost       // the session is not connected
    | CoordinateExists     // createCoordinate: the root is already there
    | CoordinateMissing    // destroyCoordinate: no root
    | ConfigHasChildren    // destroyCoordinate: the config node has children
    | CoordinateClaimed    // destroyCoordinate: a status node exists
    | NothingDeleted       // destroyCoordinate: not even the config node went
    | InstanceNotDeleted   // destroyCoordinate: only the config node went
    | NoNode               // read or write of a node that does not exist
    | NullConfigData       // comparing against a config node without data
    | ConfigMismatch       // the stored config is not the expected old one
    | BadVersion           // the config changed between the read and the write

  /** `createCoordinate`: refuse an existing root, else make the root path and an empty config node. */
  function CreateSpec(tree: map<Path, ZNode>, c: Coordinate): (r: (map<Path, ZNode>, Outcome<StoreError>))
    ensures CoordinateRoot(c) in tree ==> r == (tree, Fail(CoordinateExists))
  {
    var root := CoordinateRoot(c);
    if root in tree then (tree, Fail(CoordinateExists))
    else (Mkdirs(tree, root, |root|)[ConfigPath(c) := EMPTY_NODE], Pass)
  }

  /**
   * A new coordinate gets its root, every ancestor of it and an empty
   * config node, and no node that existed before changes.
   */
  lemma CreateMeaning(tree: map<Path, ZNode>, c: Coordinate)
    requires TreeOk(tree) && CoordinateRoot(c) !in tree
    ensures var (t, outcome) := CreateSpec(tree, c);
      && outcome == Pass && TreeOk(t)
      && (forall k :: 1 <= k <= 5 ==> CoordinateRoot(c)[..k] in t)
      && ConfigPath(c) in t && t[ConfigPath(c)] == EMPTY_NODE
      && (forall q :: q in tree ==> q in t && t[q] == tree[q])
      && (forall q :: q in t && q !in tree ==> q == ConfigPath(c) || IsPrefixUpTo(q, CoordinateRoot(c), 5))
  {
    CreatedShape(tree, c);
    CreateKeepsTreeOk(tree, c);
  }

  lemma {:induction false} CreatedShape(tree: map<Path, ZNode>, c: Coordinate)
    requires CoordinateRoot(c) !in tree
    ensures var t := CreateSpec(tree, c).0;
      && (forall k :: 1 <= k <= 5 ==> CoordinateRoot(c)[..k] in t)
      && ConfigPath(c) in t && t[ConfigPath(c)] == EMPTY_NODE
      && (forall q :: q in tree && q != ConfigPath(c) ==> q in t && t[q] == tree[q])
      && (forall q :: q in t && q !in tree ==> q == ConfigPath(c) || IsPrefixUpTo(q, CoordinateRoot(c), 5))
  {
    var root := CoordinateRoot(c);
    MkdirsMakesPrefixes(tree, root, 5);
    MkdirsKeepsNodes(tree, root, 5);
    MkdirsAddsOnlyPrefixes(tree, root, 5);
  }

  /** Where there is no root there is neither a config nor a status node. */
  lemma NoRootNoChildren(tree: map<Path, ZNode>, c: Coordinate)
    requires TreeOk(tree) && CoordinateRoot(c) !in tree
    ensures ConfigPath(c) !in tree && StatusPath(c) !in tree
  {
    assert ConfigPath(c)[..5] == CoordinateRoot(c);
    assert StatusPath(c)[..5] == CoordinateRoot(c);
  }

  lemma {:induction false} CreateKeepsTreeOk(tree: map<Path, ZNode>, c: Coordinate)
    requires TreeOk(tree) && CoordinateRoot(c) !in tree
    ensures TreeOk(CreateSpec(tree, c).0) && ConfigPath(c) !in tree
  {
    var root := CoordinateRoot(c);
    MkdirsKeepsTreeOk(tree, root, 5);
    MkdirsMakesPrefixes(tree, root, 5);
    assert root[..5] == root;
    assert ConfigPath(c)[..5] == root;
  }

  /** Creating the same coordinate twice fails the second time. */
  lemma {:induction false} CreateTwiceFails(tree: map<Path, ZNode>, c: Coordinate)
    requires TreeOk(tree)
    ensures CreateSpec(CreateSpec(tree, c).0, c).1 == Fail(CoordinateExists)
  {
    if CoordinateRoot(c) !in tree {
      CreateMeaning(tree, c);
      assert CoordinateRoot(c)[..5] == CoordinateRoot(c);
    }
  }

  /**
   * `destroyCoordinate`: the three checks in order, each refusing before
   * anything is deleted, then a deletion upwards from the config node that
   * keeps /cn/<cell>/<user>; fewer than two deleted nodes is an error.
   */
  function DestroySpec(tree: map<Path, ZNode>, c: Coordinate): (r: (map<Path, ZNode>, Outcome<StoreError>))
    ensures CoordinateRoot(c) !in tree ==> r == (tree, Fail(CoordinateMissing))
    ensures CoordinateRoot(c) in tree && ConfigPath(c) in tree && HasChildren(tree, ConfigPath(c)) ==>
      r == (tree, Fail(ConfigHasChildren))
    ensures (CoordinateRoot(c) in tree && !(ConfigPath(c) in tree && HasChildren(tree, ConfigPath(c)))
             && StatusPath(c) in tree) ==> r == (tree, Fail(CoordinateClaimed))
  {
    if CoordinateRoot(c) !in tree then (tree, Fail(CoordinateMissing))
    else if ConfigPath(c) in tree && HasChildren(tree, ConfigPath(c)) then (tree, Fail(ConfigHasChildren))
    else if StatusPath(c) in tree then (tree, Fail(CoordinateClaimed))
    else
      var (t, deleted) := DeleteUpward(tree, ConfigPath(c), 3);
      (t, if deleted == 0 then Fail(NothingDeleted) else if deleted == 1 then Fail(InstanceNotDeleted) else Pass)
  }

  /**
   * A destroy that succeeds has removed the config node and the root, and
   * at most the service node above them; /cn/<cell>/<user> and everything
   * else stays. A destroy that reports InstanceNotDeleted has still removed
   * the config node.
   */
  lemma {:induction false} DestroyMeaning(tree: map<Path, ZNode>, c: Coordinate)
    requires TreeOk(tree)
    ensures var (t, outcome) := DestroySpec(tree, c);
      && TreeOk(t)
      && (forall q :: q in t ==> q in tree && t[q] == tree[q])
      && (forall q :: q in tree && |q| <= 3 ==> q in t)
      && (forall q :: q in tree && q != ConfigPath(c) && q != CoordinateRoot(c) && q != CoordinateRoot(c)[..4] ==> q in t)
      && (outcome == Pass ==> ConfigPath(c) !in t && CoordinateRoot(c) !in t)
      && (outcome == Fail(InstanceNotDeleted) ==> ConfigPath(c) !in t && CoordinateRoot(c) in t)
      && (outcome == Fail(NothingDeleted) ==> t == tree)
  {
    DestroyKeeps(tree, c);
    DestroyReports(tree, c);
  }

  lemma {:induction false} DestroyKeeps(tree: map<Path, ZNode>, c: Coordinate)
    requires TreeOk(tree)
    ensures var t := DestroySpec(tree, c).0;
      && TreeOk(t)
      && (forall q :: q in t ==> q in tree && t[q] == tree[q])
      && (forall q :: q in tree && |q| <= 3 ==> q in t)
      && (forall q :: q in tree && q != ConfigPath(c) && q != CoordinateRoot(c) && q != CoordinateRoot(c)[..4] ==> q in t)
  {
    var config := ConfigPath(c);
    var root := CoordinateRoot(c);
    if root in tree && !(config in tree && HasChildren(tree, config)) && StatusPath(c) !in tree {
      DeleteUpwardRemoves(tree, config, 3);
      DeleteUpwardKeepsTreeOk(tree, config, 3);
      assert DestroySpec(tree, c).0 == DeleteUpward(tree, config, 3).0;
      assert config[..4] == root[..4];
      assert config[..6] == config;
    }
  }

  lemma {:induction false} DestroyReports(tree: map<Path, ZNode>, c: Coordinate)
    ensures var (t, outcome) := DestroySpec(tree, c);
      && (outcome == Pass ==> ConfigPath(c) !in t && CoordinateRoot(c) !in t)
      && (outcome == Fail(InstanceNotDeleted) ==> ConfigPath(c) !in t && CoordinateRoot(c) in t)
      && (outcome == Fail(NothingDeleted) ==> t == tree)
  {
    var config := ConfigPath(c);
    var root := CoordinateRoot(c);
    if root in tree && !(config in tree && HasChildren(tree, config)) && StatusPath(c) !in tree {
      DeleteUpwardRemoves(tree, config, 3);
      var (t, n) := DeleteUpward(tree, config, 3);
      assert config[..6] == config;
      assert config[..5] == root;
      assert n == 0 ==> t == tree;
    }
  }

  /** Right after a create the config node has no child. */
  lemma {:induction false} CreatedConfigIsBare(tree: map<Path, ZNode>, c: Coordinate)
    requires TreeOk(tree) && CoordinateRoot(c) !in tree
    ensures !HasChildren(CreateSpec(tree, c).0, ConfigPath(c))
  {
    var config := ConfigPath(c);
    var created := CreateSpec(tree, c).0;
    NoRootNoChildren(tree, c);
    CreatedShape(tree, c);
    forall q | q in created && |q| == 7
      ensures q[..6] != config
    {
      assert q in tree by {
        assert q != config && !IsPrefixUpTo(q, CoordinateRoot(c), 5);
      }
      assert q[..|q| - 1] in tree;
      assert q[..|q| - 1] == q[..6];
    }
  }

  /** Right after a create the root is there and there is no status node. */
  lemma {:induction false} CreatedIsUnclaimed(tree: map<Path, ZNode>, c: Coordinate)
    requires TreeOk(tree) && CoordinateRoot(c) !in tree
    ensures CoordinateRoot(c) in CreateSpec(tree, c).0 && StatusPath(c) !in CreateSpec(tree, c).0
  {
    CreatedShape(tree, c);
    assert CoordinateRoot(c)[..5] == CoordinateRoot(c);
    NoRootNoChildren(tree, c);
    CoordinatePathsDistinct(c, c);
  }

  /** Right after a create, once the config node is gone, the root has no child. */
  lemma {:induction false} CreatedRootIsBare(tree: map<Path, ZNode>, c: Coordinate)
    requires TreeOk(tree) && CoordinateRoot(c) !in tree
    ensures !HasChildren(CreateSpec(tree, c).0 - {ConfigPath(c)}, CoordinateRoot(c))
  {
    var root := CoordinateRoot(c);
    var afterConfig := CreateSpec(tree, c).0 - {ConfigPath(c)};
    CreatedShape(tree, c);
    assert root[..5] == root;
    forall q | q in afterConfig && |q| == 6
      ensures q[..5] != root
    {
      assert q in tree by {
        assert q != ConfigPath(c) && !IsPrefixUpTo(q, root, 5);
      }
      assert q[..|q| - 1] in tree;
      assert q[..|q| - 1] == q[..5];
    }
  }

  /** A service node that the create made has, once the root is gone, no child. */
  lemma {:induction false} CreatedServiceIsBare(tree: map<Path, ZNode>, c: Coordinate)
    requires TreeOk(tree) && CoordinateRoot(c) !in tree && CoordinateRoot(c)[..4] !in tree
    ensures var rest := CreateSpec(tree, c).0 - {ConfigPath(c)} - {CoordinateRoot(c)};
      CoordinateRoot(c)[..4] in rest && !HasChildren(rest, CoordinateRoot(c)[..4])
  {
    var root := CoordinateRoot(c);
    CreatedShape(tree, c);
    assert root[..4] in CreateSpec(tree, c).0;
    assert root[..4] != ConfigPath(c) && root[..4] != root;
    NewServiceHasOnlyRoot(tree, c);
  }

  /** The only child of a service node that the create made is the coordinate's root. */
  lemma {:induction false} NewServiceHasOnlyRoot(tree: map<Path, ZNode>, c: Coordinate)
    requires TreeOk(tree) && CoordinateRoot(c) !in tree && CoordinateRoot(c)[..4] !in tree
    ensures forall q :: q in CreateSpec(tree, c).0 && |q| == 5 && q[..4] == CoordinateRoot(c)[..4] ==>
      q == CoordinateRoot(c)
  {
    var root := CoordinateRoot(c);
    var service := root[..4];
    var t := CreateSpec(tree, c).0;
    CreatedShape(tree, c);
    forall q | q in t && |q| == 5 && q[..4] == service
      ensures q == root
    {
      if q !in tree {
        assert q != ConfigPath(c);
        assert IsPrefixUpTo(q, root, 5);
        assert root[..5] == root;
      } else {
        assert false;
      }
    }
  }

  /** Destroying right after creating deletes the config node and the root, and the service node if it is new. */
  lemma {:induction false} CreateThenDestroyCount(tree: map<Path, ZNode>, c: Coordinate)
    requires TreeOk(tree) && CoordinateRoot(c) !in tree
    ensures var n := DeleteUpward(CreateSpec(tree, c).0, ConfigPath(c), 3).1;
      n >= 2 && (CoordinateRoot(c)[..4] !in tree ==> n >= 3)
  {
    var root := CoordinateRoot(c);
    var config := ConfigPath(c);
    var service := root[..4];
    var created := CreateSpec(tree, c).0;
    CreatedShape(tree, c);
    CreatedConfigIsBare(tree, c);
    CreatedRootIsBare(tree, c);
    assert root[..5] == root;
    assert config[..5] == root;
    assert root[..4] == service;
    var afterConfig := created - {config};
    var afterRoot := afterConfig - {root};
    assert DeleteUpward(created, config, 3).1 == DeleteUpward(afterConfig, root, 3).1 + 1;
    assert DeleteUpward(afterConfig, root, 3).1 == DeleteUpward(afterRoot, service, 3).1 + 1;
    if service !in tree {
      CreatedServiceIsBare(tree, c);
      assert DeleteUpward(afterRoot, service, 3).1 >= 1;
    }
  }

  /**
   * Destroying right after creating succeeds, and leaves the tree as it was
   * apart from new nodes within the top three levels (and an empty service
   * node that existed before, which goes).
   */
  lemma {:induction false} CreateThenDestroy(tree: map<Path, ZNode>, c: Coordinate)
    requires TreeOk(tree) && CoordinateRoot(c) !in tree
    ensures var created := CreateSpec(tree, c).0;
      var (t, outcome) := DestroySpec(created, c);
      && outcome == Pass
      && (forall q :: q in tree && q != CoordinateRoot(c)[..4] ==> q in t && t[q] == tree[q])
      && (forall q :: q in t ==> q in tree || |q| <= 3)
  {
    var created := CreateSpec(tree, c).0;
    CreatedConfigIsBare(tree, c);
    CreatedIsUnclaimed(tree, c);
    CreateThenDestroyCount(tree, c);
    assert DestroySpec(created, c) == (DeleteUpward(created, ConfigPath(c), 3).0, Pass);
    CreateThenDestroyKeeps(tree, c);
    CreateThenDestroyLeavesTop(tree, c);
  }

  lemma {:induction false} CreateThenDestroyKeeps(tree: map<Path, ZNode>, c: Coordinate)
    requires TreeOk(tree) && CoordinateRoot(c) !in tree
    ensures var t := DeleteUpward(CreateSpec(tree, c).0, ConfigPath(c), 3).0;
      forall q :: q in tree && q != CoordinateRoot(c)[..4] ==> q in t && t[q] == tree[q]
  {
    var root := CoordinateRoot(c);
    var config := ConfigPath(c);
    var created := CreateSpec(tree, c).0;
    CreatedShape(tree, c);
    NoRootNoChildren(tree, c);
    DeleteUpwardRemoves(created, config, 3);
    assert config[..5] == root;
    assert config[..4] == root[..4];
    assert config[..6] == config;
    var (t, n) := DeleteUpward(created, config, 3);
    forall q | q in tree && q != root[..4]
      ensures q in t && t[q] == tree[q]
    {
      assert q != config && q != root;
      assert q in created && created[q] == tree[q];
      assert q != config[..4] && q != config[..5] && q != config[..6];
      assert !(6 - n < |q| <= 6 && q == config[..|q|]);
    }
  }

  lemma {:induction false} CreateThenDestroyLeavesTop(tree: map<Path, ZNode>, c: Coordinate)
    requires TreeOk(tree) && CoordinateRoot(c) !in tree
    ensures var t := DeleteUpward(CreateSpec(tree, c).0, ConfigPath(c), 3).0;
      forall q :: q in t ==> q in tree || |q| <= 3
  {
    var root := CoordinateRoot(c);
    var config := ConfigPath(c);
    var created := CreateSpec(tree, c).0;
    CreatedShape(tree, c);
    CreateThenDestroyCount(tree, c);
    DeleteUpwardRemoves(created, config, 3);
    assert config[..5] == root;
    assert config[..4] == root[..4];
    var service := root[..4];
    var (t, n) := DeleteUpward(created, config, 3);
    forall q | q in t && q !in tree
      ensures |q| <= 3
    {
      assert q in created;
      assert q == config || IsPrefixUpTo(q, root, 5);
      assert |q| <= 6 && q == config[..|q|] by {
        if q != config {
          assert root[..|q|] == config[..|q|];
        }
      }
      assert |q| <= 6 - n;
      assert |q| == 4 ==> q == service;
    }
  }

  /** `getConfig`: a missing node is an error; a node without data reads as null (None). */
  function GetConfigSpec(tree: map<Path, ZNode>, c: Coordinate): (r: Result<Option<string>, StoreError>)
    ensures r.Failure? <==> ConfigPath(c) !in tree
    ensures r.Success? ==> r.value == tree[ConfigPath(c)].data
  {
    if ConfigPath(c) !in tree then Failure(NoNode) else Success(tree[ConfigPath(c)].data)
  }

  /** Another client's write to `path`, if any, landing in the middle of a call. */
  function Interleave(tree: map<Path, ZNode>, path: Path, write: Option<string>): map<Path, ZNode> {
    if write.Some? && path in tree then tree[path := ZNode(write, tree[path].version + 1)] else tree
  }

  /** `setData` with an expected version; -1 accepts any version. */
  function SetDataSpec(tree: map<Path, ZNode>, path: Path, data: string, version: int): (r: (map<Path, ZNode>, Outcome<StoreError>))
    ensures r.1 == Pass <==> path in tree && (version == -1 || version == tree[path].version)
    ensures r.1.Fail? ==> r.0 == tree
    ensures r.1 == Pass ==> r.0.Keys == tree.Keys && r.0[path] == ZNode(Some(data), tree[path].version + 1)
    ensures forall q :: q in tree && q != path ==> q in r.0 && r.0[q] == tree[q]
  {
    if path !in tree then (tree, Fail(NoNode))
    else if version != -1 && version != tree[path].version then (tree, Fail(BadVersion))
    else (tree[path := ZNode(Some(data), tree[path].version + 1)], Pass)
  }

  /**
   * `setConfig(newConfig, oldConfig)`. With no old config the write is
   * unconditional. Otherwise the stored data is read and compared first
   * (missing node, null data and a different value all refuse), and the
   * write is conditioned on the version that was read, so that a write by
   * another client in between (`interleaved`) makes it fail.
   */
  function SetConfigSpec(tree: map<Path, ZNode>, c: Coordinate, newConfig: string,
                         oldConfig: Option<string>, interleaved: Option<string>): (r: (map<Path, ZNode>, Outcome<StoreError>))
    ensures r.0.Keys == tree.Keys
    ensures forall q :: q in tree && q != ConfigPath(c) ==> r.0[q] == tree[q]
    ensures r.1 == Pass <==>
      (ConfigPath(c) in tree && (oldConfig.None? || (tree[ConfigPath(c)].data == oldConfig && interleaved.None?)))
    ensures r.1 == Pass ==> r.0[ConfigPath(c)].data == Some(newConfig)
    ensures oldConfig.Some? && r.1.Fail? ==> r.0 == Interleave(tree, ConfigPath(c), interleaved) || r.0 == tree
  {
    var path := ConfigPath(c);
    if oldConfig.None? then SetDataSpec(Interleave(tree, path, interleaved), path, newConfig, -1)
    else if path !in tree then (tree, Fail(NoNode))
    else if tree[path].data.None? then (tree, Fail(NullConfigData))
    else if tree[path].data.value != oldConfig.value then (tree, Fail(ConfigMismatch))
    else SetDataSpec(Interleave(tree, path, interleaved), path, newConfig, tree[path].version)
  }

  /** Without an old config the write always lands, whatever was written before: getConfig then reads it. */
  lemma UnconditionalSetConfig(tree: map<Path, ZNode>, c: Coordinate, newConfig: string, interleaved: Option<string>)
    requires ConfigPath(c) in tree
    ensures var (t, outcome) := SetConfigSpec(tree, c, newConfig, None, interleaved);
      outcome == Pass && GetConfigSpec(t, c) == Success(Some(newConfig)) && t.Keys == tree.Keys
  {
  }

  /** A matching old config with no write in between: the new one is stored under the next version. */
  lemma CompareAndSetConfig(tree: map<Path, ZNode>, c: Coordinate, newConfig: string, oldConfig: string)
    requires ConfigPath(c) in tree && tree[ConfigPath(c)].data == Some(oldConfig)
    ensures var (t, outcome) := SetConfigSpec(tree, c, newConfig, Some(oldConfig), None);
      && outcome == Pass && GetConfigSpec(t, c) == Success(Some(newConfig))
      && t[ConfigPath(c)].version == tree[ConfigPath(c)].version + 1
      && t.Keys == tree.Keys
  {
  }

  /** A stored config that differs from the old one, or is null, refuses and changes nothing. */
  lemma MismatchedSetConfig(tree: map<Path, ZNode>, c: Coordinate, newConfig: string, oldConfig: string,
                            interleaved: Option<string>)
    requires ConfigPath(c) in tree && tree[ConfigPath(c)].data != Some(oldConfig)
    ensures var (t, outcome) := SetConfigSpec(tree, c, newConfig, Some(oldConfig), interleaved);
      && t == tree
      && outcome == (if tree[ConfigPath(c)].data.None? then Fail(NullConfigData) else Fail(ConfigMismatch))
  {
  }

  /**
   * A write by another client between the read and the conditional write
   * makes the conditional write fail, and that other write is what stays.
   */
  lemma InterleavedSetConfigFails(tree: map<Path, ZNode>, c: Coordinate, newConfig: string, oldConfig: string,
                                  other: string)
    requires ConfigPath(c) in tree && tree[ConfigPath(c)].data == Some(oldConfig)
    ensures var (t, outcome) := SetConfigSpec(tree, c, newConfig, Some(oldConfig), Some(other));
      outcome == Fail(BadVersion) && GetConfigSpec(t, c) == Success(Some(other))
  {
  }

  // ---------------------------------------------------------------------------
  // The store object

  /** The coordination service's tree, shared by every session that reaches it. */
  class Store {
    var tree: map<Path, ZNode>

    constructor(tree: map<Path, ZNode>)
      requires TreeOk(tree)
      ensures this.tree == tree
    {
      this.tree := tree;
    }

    /** A write by another client, if any: it bumps the node's version. */
    method OtherClientWrites(path: Path, write: Option<string>)
      modifies this
      ensures tree == Interleave(old(tree), path, write)
      ensures TreeOk(old(tree)) ==> TreeOk(tree)
    {
      if write.Some? && path in tree {
        if TreeOk(tree) {
          UpdateKeepsTreeOk(tree, path, ZNode(write, tree[path].version + 1));
        }
        tree := tree[path := ZNode(write, tree[path].version + 1)];
      }
    }

    /** `setData(path, data, version)`: refuses a missing node or a stale version; -1 accepts any. */
    method SetData(path: Path, data: string, version: int) returns (outcome: Outcome<StoreError>)
      modifies this
      ensures (tree, outcome) == SetDataSpec(old(tree), path, data, version)
      ensures TreeOk(old(tree)) ==> TreeOk(tree)
    {
      if path !in tree {
        return Fail(NoNode);
      }
      if version != -1 && version != tree[path].version {
        return Fail(BadVersion);
      }
      var written := ZNode(Some(data), tree[path].version + 1);
      if TreeOk(tree) {
        UpdateKeepsTreeOk(tree, path, written);
      }
      tree := tree[path := written];
      outcome := Pass;
    }

    /** `Util.mkdir`: creates the missing prefixes of `path`, shortest first. */
    method Mkdir(path: Path)
      modifies this
      ensures tree == Mkdirs(old(tree), path, |path|)
    {
      for n := 1 to |path| + 1
        invariant tree == Mkdirs(old(tree), path, n - 1)
      {
        if path[..n] !in tree {
          tree := tree[path[..n] := EMPTY_NODE];
        }
      }
    }

    /** `Util.deletePathKeepRootLevels`: deletes upwards from `path` and counts the deleted nodes. */
    method DeletePathKeepRootLevels(path: Path, keep: nat) returns (deleted: nat)
      modifies this
      ensures (tree, deleted) == DeleteUpward(old(tree), path, keep)
    {
      deleted := 0;
      var p := path;
      while |p| > keep && p in tree && !HasChildren(tree, p)
        invariant DeleteUpward(old(tree), path, keep) ==
          (DeleteUpward(tree, p, keep).0, DeleteUpward(tree, p, keep).1 + deleted)
        decreases |p|
      {
        tree := tree - {p};
        p := p[..|p| - 1];
        deleted := deleted + 1;
      }
    }
  }

  // ---------------------------------------------------------------------------
  // The session owner

  /** A user of the session, known by its identity. */
  type User = nat

  /** The calls a user receives. */
  datatype UserCall = TimeEvent | ZooKeeperDown | NewZooKeeperInstance(session: Option<Session>)

  /** The session states a watcher event reports. */
  datatype KeeperState = Disconnected | SyncConnected | AuthFailed | ConnectedReadOnly | SaslAuthenticated | Expired

  datatype CloseError = NotConnected

  /** Why a store operation cannot go through the current session, if it cannot. */
  function SessionProblem(zk: Option<Session>): (r: Option<StoreError>)
    ensures r.None? <==> zk.Some? && zk.value.state == CONNECTED
  {
    if zk.None? then Some(NoSession)
    else if zk.value.state != CONNECTED then Some(ConnectionLost)
    else None
  }

  class ZkCloudname {
    const connectString: string
    /** The tree the sessions reach. */
    const store: Store
    var zk: Option<Session>
    var nextSessionId: nat
    var isClosed: bool
    var connectingCounter: nat
    /** The count of the latch that the first connection releases. */
    var connectedSignal: nat
    var users: set<User>

    /** The part of the state the supervisor loop works on. */
    function Supervision(): Supervisor
      reads this
    {
      Supervisor(zk, nextSessionId, connectingCounter, isClosed)
    }

    ghost predicate Valid()
      reads this, store
    {
      && connectingCounter <= CONNECTING_LIMIT
      && IdsFresh(Supervision())
      && connectedSignal <= 1
      && TreeOk(store.tree)
    }

    constructor(connectString: string, store: Store)
      requires TreeOk(store.tree)
      ensures Valid()
      ensures this.connectString == connectString && this.store == store
      ensures zk.None? && nextSessionId == 0 && !isClosed && connectingCounter == 0
      ensures connectedSignal == 1 && users == {}
    {
      this.connectString := connectString;
      this.store := store;
      zk := None;
      nextSessionId := 0;
      isClosed := false;
      connectingCounter := 0;
      connectedSignal := 1;
      users := {};
    }

    /** `users.put(user, 1)`: a user joins the registry. */
    method AddUser(user: User)
      modifies this
      ensures users == old(users) + {user}
      ensures Supervision() == old(Supervision()) && connectedSignal == old(connectedSignal)
    {
      users := users + {user};
    }

    /** `retryConnection`: a new session, in the CONNECTING state, replaces the current one if it opens. */
    method RetryConnection(reopened: bool)
      modifies this
      ensures reopened ==> zk == Some(Session(old(nextSessionId), CONNECTING)) && nextSessionId == old(nextSessionId) + 1
      ensures !reopened ==> zk == old(zk) && nextSessionId == old(nextSessionId)
      ensures connectingCounter == old(connectingCounter) && isClosed == old(isClosed)
      ensures users == old(users) && connectedSignal == old(connectedSignal)
    {
      if reopened {
        zk := Some(Session(nextSessionId, CONNECTING));
        nextSessionId := nextSessionId + 1;
      }
    }

    /**
     * One turn of `run`: `settled` is the state the session is in after the
     * pause, `reopened` whether opening a new session succeeds. Returns
     * whether the loop ends and the ticks sent to the users.
     */
    method RunIteration(settled: ZkState, reopened: bool) returns (exit: bool, ticked: seq<(User, UserCall)>)
      requires Valid()
      modifies this
      ensures Valid()
      ensures Supervision() == Step(old(Supervision()), settled, reopened).after
      ensures exit == Step(old(Supervision()), settled, reopened).exit
      ensures Step(old(Supervision()), settled, reopened).tick ==> Fanout.Delivers(ticked, users, TimeEvent)
      ensures !Step(old(Supervision()), settled, reopened).tick ==> ticked == []
      ensures users == old(users) && connectedSignal == old(connectedSignal)
    {
      var current := zk;
      if current.Some? && current.value.state == CONNECTED {
        connectingCounter := 0;
      }
      if current.Some? && current.value.state == CONNECTING {
        connectingCounter := connectingCounter + 1;
        if connectingCounter > CONNECTING_LIMIT {
          zk := Some(current.value.(state := CLOSED));
          current := zk;
          connectingCounter := 0;
        }
      }
      ghost var observed := if old(zk).Some? then Some(old(zk).value.state) else None;
      assert connectingCounter == CountConnecting(old(connectingCounter), observed).0;
      if current.Some? && current.value.state == CLOSED {
        RetryConnection(reopened);
      }
      // the pause: a session that is not closed settles
      if zk.Some? && zk.value.state != CLOSED {
        zk := Some(zk.value.(state := settled));
      }
      assert Supervision() == Step(old(Supervision()), settled, reopened).after;
      ticked := TickUsers();
      exit := isClosed;
    }

    /** After the pause: every user gets a time event if the session is connected. */
    method TickUsers() returns (ticked: seq<(User, UserCall)>)
      ensures zk.Some? && zk.value.state == CONNECTED ==> Fanout.Delivers(ticked, users, TimeEvent)
      ensures !(zk.Some? && zk.value.state == CONNECTED) ==> ticked == []
    {
      if zk.Some? && zk.value.state == CONNECTED {
        ticked := Fanout.Broadcast(users, TimeEvent);
      } else {
        ticked := [];
      }
    }

    /**
     * `process`: a Disconnected or Expired event tells every user the
     * session is down; SyncConnected releases the connect latch and hands
     * every user the current session; other events do nothing.
     */
    method Process(event: KeeperState) returns (sent: seq<(User, UserCall)>)
      requires Valid()
      modifies this
      ensures Valid()
      ensures Supervision() == old(Supervision()) && users == old(users)
      ensures event == SyncConnected ==> connectedSignal == 0
      ensures event != SyncConnected ==> connectedSignal == old(connectedSignal)
      ensures event == Disconnected || event == Expired ==> Fanout.Delivers(sent, users, ZooKeeperDown)
      ensures event == SyncConnected ==> Fanout.Delivers(sent, users, NewZooKeeperInstance(zk))
      ensures !(event == Disconnected || event == Expired || event == SyncConnected) ==> sent == []
    {
      sent := [];
      if event == Disconnected || event == Expired {
        sent := Fanout.Broadcast(users, ZooKeeperDown);
      }
      if event == SyncConnected {
        if connectedSignal > 0 {
          connectedSignal := connectedSignal - 1;
        }
        sent := Fanout.Broadcast(users, NewZooKeeperInstance(zk));
        return;
      }
    }

    /** `close`: closes the session and sets the flag that ends the loop; without a session it refuses. */
    method Close() returns (outcome: Outcome<CloseError>)
      requires Valid()
      modifies this
      ensures Valid()
      ensures old(zk).None? ==> outcome == Fail(NotConnected) && Supervision() == old(Supervision())
      ensures old(zk).Some? ==>
        && outcome == Pass && isClosed
        && zk == Some(Session(old(zk).value.id, CLOSED))
        && nextSessionId == old(nextSessionId) && connectingCounter == old(connectingCounter)
      ensures users == old(users) && connectedSignal == old(connectedSignal)
    {
      if zk.None? {
        return Fail(NotConnected);
      }
      zk := Some(zk.value.(state := CLOSED));
      isClosed := true;
      outcome := Pass;
    }

    /** `createCoordinate` through the current session. */
    method CreateCoordinate(c: Coordinate) returns (outcome: Outcome<StoreError>)
      requires Valid()
      modifies store
      ensures Valid()
      ensures SessionProblem(zk).Some? ==> outcome == Fail(SessionProblem(zk).value) && store.tree == old(store.tree)
      ensures SessionProblem(zk).None? ==> (store.tree, outcome) == CreateSpec(old(store.tree), c)
    {
      var problem := SessionProblem(zk);
      if problem.Some? {
        return Fail(problem.value);
      }
      var root := CoordinateRoot(c);
      if root in store.tree {
        return Fail(CoordinateExists);
      }
      CreateMeaning(store.tree, c);
      store.Mkdir(root);
      // the config node's parent is the root just made, so it cannot exist yet
      store.tree := store.tree[ConfigPath(c) := EMPTY_NODE];
      outcome := Pass;
    }

    /** `destroyCoordinate` through the current session. */
    method DestroyCoordinate(c: Coordinate) returns (outcome: Outcome<StoreError>)
      requires Valid()
      modifies store
      ensures Valid()
      ensures SessionProblem(zk).Some? ==> outcome == Fail(SessionProblem(zk).value) && store.tree == old(store.tree)
      ensures SessionProblem(zk).None? ==> (store.tree, outcome) == DestroySpec(old(store.tree), c)
    {
      var problem := SessionProblem(zk);
      if problem.Some? {
        return Fail(problem.value);
      }
      var statusPath := StatusPath(c);
      var configPath := ConfigPath(c);
      var rootPath := CoordinateRoot(c);
      if rootPath !in store.tree {
        return Fail(CoordinateMissing);
      }
      if configPath in store.tree && HasChildren(store.tree, configPath) {
        return Fail(ConfigHasChildren);
      }
      if statusPath in store.tree {
        return Fail(CoordinateClaimed);
      }
      DestroyMeaning(store.tree, c);
      var deleted := store.DeletePathKeepRootLevels(configPath, 3);
      if deleted == 0 {
        return Fail(NothingDeleted);
      }
      if deleted == 1 {
        return Fail(InstanceNotDeleted);
      }
      outcome := Pass;
    }

    /**
     * `setConfig` through the current session; `interleaved` is a write by
     * another client that lands between this call's read and its write.
     */
    method SetConfig(c: Coordinate, newConfig: string, oldConfig: Option<string>, interleaved: Option<string>)
      returns (outcome: Outcome<StoreError>)
      requires Valid()
      modifies store
      ensures Valid()
      ensures SessionProblem(zk).Some? ==> outcome == Fail(SessionProblem(zk).value) && store.tree == old(store.tree)
      ensures SessionProblem(zk).None? ==>
        (store.tree, outcome) == SetConfigSpec(old(store.tree), c, newConfig, oldConfig, interleaved)
    {
      var problem := SessionProblem(zk);
      if problem.Some? {
        return Fail(problem.value);
      }
      var configPath := ConfigPath(c);
      var version: int := -1;
      if oldConfig.Some? {
        if configPath !in store.tree {
          return Fail(NoNode);
        }
        var stored := store.tree[configPath];
        if stored.data.None? {
          return Fail(NullConfigData);
        }
        if stored.data.value != oldConfig.value {
          return Fail(ConfigMismatch);
        }
        version := stored.version;
      }
      store.OtherClientWrites(configPath, interleaved);
      outcome := store.SetData(configPath, newConfig, version);
    }

    /** `getConfig` through the current session. */
    method GetConfig(c: Coordinate) returns (r: Result<Option<string>, StoreError>)
      requires Valid()
      ensures SessionProblem(zk).Some? ==> r == Failure(SessionProblem(zk).value)
      ensures SessionProblem(zk).None? ==> r == GetConfigSpec(store.tree, c)
    {
      var problem := SessionProblem(zk);
      if problem.Some? {
        return Failure(problem.value);
      }
      var configPath := ConfigPath(c);
      if configPath !in store.tree {
        return Failure(NoNode);
      }
      var stored := store.tree[configPath];
      if stored.data.None? {
        return Success(None);
      }
      r := Success(Some(stored.data.value));
    }
  }

  // ---------------------------------------------------------------------------
  // The builder

  /** The builder's one setting; None until it is set. */
  datatype Builder = Builder(connectString: Option<string>)

  const DEFAULT_CONNECT_STRING: string := "z1:2181,z2:2181,z3:2181"

  datatype BuildError =
    | NoConnectString     // the connect string was never set
    | EmptyConnectString  // "You need to specify connection string before you can build."

  function SetConnectString(b: Builder, connectString: string): (r: Builder)
    ensures r.connectString == Some(connectString)
  {
    b.(connectString := Some(connectString))
  }

  function SetDefaultConnectString(b: Builder): (r: Builder)
    ensures r.connectString == Some(DEFAULT_CONNECT_STRING)
  {
    b.(connectString := Some(DEFAULT_CONNECT_STRING))
  }

  /** What `build` checks: a connect string that was set and is not empty. */
  function BuildCheck(b: Builder): (r: Outcome<BuildError>)
    ensures r == Pass <==> b.connectString.Some? && |b.connectString.value| > 0
  {
    if b.connectString.None? then Fail(NoConnectString)
    else if b.connectString.value == "" then Fail(EmptyConnectString)
    else Pass
  }

  /** The default connect string always builds; setting the empty string never does. */
  lemma DefaultBuilds(b: Builder)
    ensures BuildCheck(SetDefaultConnectString(b)) == Pass
    ensures BuildCheck(SetConnectString(b, "")) == Fail(EmptyConnectString)
  {
  }

  /** `Builder.build`: a fresh, unconnected object with the builder's connect string. */
  method Build(b: Builder, store: Store) returns (r: Result<ZkCloudname, BuildError>)
    requires TreeOk(store.tree)
    ensures BuildCheck(b).Fail? ==> r == Failure(BuildCheck(b).error)
    ensures BuildCheck(b) == Pass ==>
      && r.Success? && fresh(r.value) && r.value.Valid()
      && r.value.connectString == b.connectString.value && r.value.store == store
      && r.value.zk.None? && !r.value.isClosed && r.value.users == {}
  {
    if b.connectString.None? {
      return Failure(NoConnectString);
    }
    if b.connectString.value == "" {
      return Failure(EmptyConnectString);
    }
    var cloudname := new ZkCloudname(b.connectString.value, store);
    r := Success(cloudname);
  }
}
