/**
 * File discovery (`findGamlFiles`): a depth-first walk of a directory tree
 * that prunes `node_modules` and `.git` directories and collects the paths
 * of non-directory entries whose name ends in `.gaml`, appending them to a
 * shared accumulator in listing order.
 */
module Discovery {
  import opened Text

  /** A path as the sequence of its components. */
  type Path = seq<string>

  /** A directory entry as `readdirSync` lists it and `statSync` classifies it. */
  datatype Node = File(name: string) | Dir(name: string, entries: seq<Node>)

  const GamlExtension := ".gaml"

  /** Directory names the walk does not descend into. */
  predicate Pruned(name: string) {
    name == "node_modules" || name == ".git"
  }

  /** `p` names an entry somewhere below directory `dir`. */
  predicate Below(dir: Path, p: Path) {
    |dir| < |p| && p[..|dir|] == dir
  }

  /** The paths the walk of `entries`, listed in directory `dir`, appends, in order. */
  function Collect(dir: Path, entries: seq<Node>): (paths: seq<Path>)
    ensures forall p :: p in paths ==> Below(dir, p)
    decreases entries
  {
    if entries == [] then [] else Visit(dir, entries[0]) + Collect(dir, entries[1..])
  }

  /** The paths one entry of directory `dir` contributes. */
  function Visit(dir: Path, node: Node): (paths: seq<Path>)
    ensures forall p :: p in paths ==> Below(dir, p)
    decreases node
  {
    match node
    case File(name) => if EndsWith(name, GamlExtension) then [dir + [name]] else []
    case Dir(name, entries) => if Pruned(name) then [] else Collect(dir + [name], entries)
  }

  /**
   * `loc` leads, by listing positions, from `entries` (the listing of `dir`)
   * to a non-directory entry whose name ends in `.gaml`, through directories
   * none of which is pruned; `p` is that entry's path.
   */
  ghost predicate GamlAt(dir: Path, entries: seq<Node>, loc: seq<nat>, p: Path)
    decreases loc
  {
    && |loc| > 0
    && loc[0] < |entries|
    && match entries[loc[0]]
       case File(name) => |loc| == 1 && EndsWith(name, GamlExtension) && p == dir + [name]
       case Dir(name, sub) => |loc| > 1 && !Pruned(name) && GamlAt(dir + [name], sub, loc[1..], p)
  }

  /** The walk keeps listing order: what earlier entries contribute comes first. */
  lemma {:induction false} CollectAppend(dir: Path, xs: seq<Node>, ys: seq<Node>)
    ensures Collect(dir, xs + ys) == Collect(dir, xs) + Collect(dir, ys)
    decreases xs
  {
    if xs == [] {
      assert xs + ys == ys;
    } else {
      assert (xs + ys)[1..] == xs[1..] + ys;
      CollectAppend(dir, xs[1..], ys);
    }
  }

  lemma CollectSnoc(dir: Path, entries: seq<Node>, i: nat)
    requires i < |entries|
    ensures Collect(dir, entries[..i + 1]) == Collect(dir, entries[..i]) + Visit(dir, entries[i])
  {
    assert entries[..i + 1] == entries[..i] + [entries[i]];
    CollectAppend(dir, entries[..i], [entries[i]]);
    assert [entries[i]][1..] == [];
  }

  /**
   * Every returned path lies under `dir`, names a `.gaml` file, and passes
   * through no `node_modules` or `.git` directory.
   */
  lemma {:induction false} CollectShape(dir: Path, entries: seq<Node>, p: Path)
    requires p in Collect(dir, entries)
    ensures |dir| < |p| && p[..|dir|] == dir
    ensures EndsWith(p[|p| - 1], GamlExtension)
    ensures forall k :: |dir| <= k < |p| ==> !Pruned(p[k])
    decreases entries
  {
    if p in Visit(dir, entries[0]) {
      match entries[0]
      case File(name) =>
      case Dir(name, sub) =>
        CollectShape(dir + [name], sub, p);
        assert p[..|dir| + 1][..|dir|] == p[..|dir|];
    } else {
      CollectShape(dir, entries[1..], p);
    }
  }

  /** Every returned path is the path of a `.gaml` file reachable without entering a pruned directory. */
  lemma {:induction false} CollectSound(dir: Path, entries: seq<Node>, p: Path)
    requires p in Collect(dir, entries)
    ensures exists loc :: GamlAt(dir, entries, loc, p)
    decreases entries
  {
    if p in Visit(dir, entries[0]) {
      match entries[0]
      case File(name) =>
        assert GamlAt(dir, entries, [0], p);
      case Dir(name, sub) =>
        CollectSound(dir + [name], sub, p);
        var loc :| GamlAt(dir + [name], sub, loc, p);
        assert ([0] + loc)[1..] == loc;
        assert GamlAt(dir, entries, [0] + loc, p);
    } else {
      CollectSound(dir, entries[1..], p);
      var loc :| GamlAt(dir, entries[1..], loc, p);
      assert GamlAt(dir, entries, [loc[0] + 1] + loc[1..], p) by {
        assert ([loc[0] + 1] + loc[1..])[1..] == loc[1..];
      }
    }
  }

  /** Every `.gaml` file reachable without entering a pruned directory is returned. */
  lemma {:induction false} CollectComplete(dir: Path, entries: seq<Node>, loc: seq<nat>, p: Path)
    requires GamlAt(dir, entries, loc, p)
    ensures p in Collect(dir, entries)
    decreases entries
  {
    if loc[0] == 0 {
      match entries[0]
      case File(name) =>
      case Dir(name, sub) =>
        CollectComplete(dir + [name], sub, loc[1..], p);
    } else {
      var loc' := [loc[0] - 1] + loc[1..];
      assert loc'[1..] == loc[1..];
      assert GamlAt(dir, entries[1..], loc', p);
      CollectComplete(dir, entries[1..], loc', p);
    }
  }

  /** The shared `fileList` accumulator. */
  class FileList {
    var paths: seq<Path>

    constructor ()
      ensures paths == []
    {
      paths := [];
    }
  }

  /**
   * `findGamlFiles(dir, fileList)`, where `entries` is the listing of `dir`:
   * appends the walk's paths to `list` and leaves what was there in front.
   */
  method FindGamlFiles(list: FileList, dir: Path, entries: seq<Node>)
    modifies list
    ensures list.paths == old(list.paths) + Collect(dir, entries)
    decreases entries
  {
    var i := 0;
    while i < |entries|
      invariant 0 <= i <= |entries|
      invariant list.paths == old(list.paths) + Collect(dir, entries[..i])
    {
      CollectSnoc(dir, entries, i);
      match entries[i] {
        case Dir(name, sub) =>
          if !Pruned(name) {
            FindGamlFiles(list, dir + [name], sub);
          }
        case File(name) =>
          if EndsWith(name, GamlExtension) {
            list.paths := list.paths + [dir + [name]];
          }
      }
      i := i + 1;
    }
    assert entries[..i] == entries;
  }
}
