/** Writing pulled secret files: everything is staged and checked first, then written file by file. */
module Staging {
  import opened Prelude
  import opened FileTree

  datatype Content = Absent | Unreadable | Bytes(bytes: seq<int>)

  /** `content` is what the base64 text of the server decodes to. */
  datatype SecretFile = SecretFile(path: string, content: Content, size: int, mode: string)

  datatype Staged = Staged(path: string, dest: Path, content: seq<int>, mode: int)

  datatype StageError =
    | AbsolutePath | NoContent | OutsideRoot | BrokenAncestor | EscapesThroughLink | WritesThroughLink
    | DestinationError | UnreadableContent | WrongSize | UnsupportedMode

  // ----- paths as text

  function Split(s: string): seq<string> {
    if s == [] then [""]
    else
      var rest := Split(s[1..]);
      if s[0] == '/' then [""] + rest else [[s[0]] + rest[0]] + rest[1..]
  }

  /** filepath.Join of a clean absolute path and some names: dots are resolved in the text alone. */
  function Join(base: Path, names: seq<string>): Path
    decreases |names|
  {
    if names == [] then base
    else if names[0] == "" || names[0] == "." then Join(base, names[1..])
    else if names[0] == ".." then Join(Parent(base), names[1..])
    else Join(base + [names[0]], names[1..])
  }

  function CommonLength(a: Path, b: Path): nat {
    if a == [] || b == [] || a[0] != b[0] then 0 else 1 + CommonLength(a[1..], b[1..])
  }

  /** filepath.Rel of two clean absolute paths: so many times "..", then names. */
  function Rel(base: Path, target: Path): (int, Path)
  {
    CommonBound(base, target);
    var n := CommonLength(base, target);
    (|base| - n, target[n..])
  }

  predicate Contained(root: Path, candidate: Path) {
    var (ups, downs) := Rel(root, candidate);
    !(ups == 0 && downs == []) && ups == 0
  }

  lemma {:induction false} CommonBound(a: Path, b: Path)
    ensures CommonLength(a, b) <= |a| && CommonLength(a, b) <= |b|
    ensures a[..CommonLength(a, b)] == b[..CommonLength(a, b)]
    ensures a <= b ==> CommonLength(a, b) == |a|
  {
    if a != [] && b != [] && a[0] == b[0] {
      CommonBound(a[1..], b[1..]);
      var n := CommonLength(a[1..], b[1..]);
      assert a[..n + 1] == [a[0]] + a[1..][..n] && b[..n + 1] == [b[0]] + b[1..][..n];
    }
  }

  lemma ContainedMeansBelow(root: Path, candidate: Path)
    ensures Contained(root, candidate) <==> root < candidate
  {
    CommonBound(root, candidate);
    if Contained(root, candidate) {
      assert root[..|root|] == root;
    }
  }

  lemma {:induction false} JoinIsPlain(base: Path, names: seq<string>)
    requires AllPlain(base)
    ensures AllPlain(Join(base, names))
    decreases |names|
  {
    if names != [] {
      if names[0] == "" || names[0] == "." {
        JoinIsPlain(base, names[1..]);
      } else if names[0] == ".." {
        JoinIsPlain(Parent(base), names[1..]);
      } else {
        JoinIsPlain(base + [names[0]], names[1..]);
      }
    }
  }

  // ----- what staging accepts

  predicate LooksAbsolute(path: string) {
    path != [] && (path[0] == '/' || path[0] == '\\')
  }

  /** The first of `p`, its parent, ... that exists or is no longer below the root. */
  function Ancestor(t: Tree, root: Path, p: Path): Path
    decreases |p|
  {
    if Lstat(t, p).Found? || p == [] || !Contained(root, p) then p else Ancestor(t, root, Parent(p))
  }

  function ModeOf(mode: string): Option<int> {
    if mode == "0400" then Some(0x100)
    else if mode == "0600" || mode == "" then Some(0x180)
    else None
  }

  /** The directory part of the checks: nothing on the way to `dest` leads out of the root. */
  predicate Reachable(t: Tree, root: Path, dest: Path) {
    && Contained(root, dest)
    && (var ancestor := Ancestor(t, root, Parent(dest));
        Lstat(t, ancestor).Found? ==>
          && EvalSymlinks(t, ancestor).Found?
          && (var place := EvalSymlinks(t, ancestor).path; place == root || Contained(root, place)))
    && match Lstat(t, dest)
       case Found(p, _) => p in t && !t[p].Link?
       case Missing(_, _) => true
       case Refused => false
  }

  predicate Accepts(t: Tree, root: Path, f: SecretFile) {
    && !LooksAbsolute(f.path) && f.content.Bytes? && |f.content.bytes| == f.size && ModeOf(f.mode).Some?
    && Reachable(t, root, Join(root, Split(f.path)))
  }

  /** A root that exists, as it does once `MkdirAll` has succeeded. */
  ghost predicate ExistingRoot(t: Tree, root: Path) {
    WellFormed(t) && AllPlain(root) && Lstat(t, root).Found?
  }

  method StageSecretFile(disk: Disk, root: Path, f: SecretFile) returns (r: Result<Staged, StageError>)
    requires ExistingRoot(disk.tree, root)
    ensures r.Ok? <==> Accepts(disk.tree, root, f)
    ensures r.Ok? ==> r.value == Staged(f.path, Join(root, Split(f.path)), f.content.bytes, ModeOf(f.mode).value)
  {
    if LooksAbsolute(f.path) {
      return Err(AbsolutePath);
    }
    if f.content == Absent {
      return Err(NoContent);
    }
    var dest := Join(root, Split(f.path));
    if !Contained(root, dest) {
      return Err(OutsideRoot);
    }
    var ancestor := Parent(dest);
    while !Lstat(disk.tree, ancestor).Found? && Contained(root, ancestor)
      invariant Ancestor(disk.tree, root, ancestor) == Ancestor(disk.tree, root, Parent(dest))
      decreases |ancestor|
    {
      ContainedMeansBelow(root, ancestor);
      ancestor := Parent(ancestor);
    }
    if Lstat(disk.tree, ancestor).Found? {
      var place := EvalSymlinks(disk.tree, ancestor);
      if !place.Found? {
        return Err(BrokenAncestor);
      }
      if place.path != root && !Contained(root, place.path) {
        return Err(EscapesThroughLink);
      }
    }
    WalkLands(disk.tree, [], dest, false, KERNEL_LINKS);
    match Lstat(disk.tree, dest) {
      case Found(p, _) =>
        if disk.tree[p].Link? {
          return Err(WritesThroughLink);
        }
      case Missing(_, _) =>
      case Refused => return Err(DestinationError);
    }
    if f.content == Unreadable {
      return Err(UnreadableContent);
    }
    if |f.content.bytes| != f.size {
      return Err(WrongSize);
    }
    var mode := ModeOf(f.mode);
    if mode == None {
      return Err(UnsupportedMode);
    }
    return Ok(Staged(f.path, dest, f.content.bytes, mode.value));
  }

  // ----- what acceptance means for the file system

  /**
    The first `k` names of `dest` lead to a directory `place` in the root, and below it `dest` meets no
    link at all.
  */
  ghost predicate Anchored(t: Tree, root: Path, dest: Path, k: nat, place: Path) {
    && k < |dest| && AllPlain(dest)
    && root <= place && IsDir(t, place)
    && Stat(t, dest[..k]).Found? && Stat(t, dest[..k]).path == place
    && NoLinks(t, place, dest[k..])
  }

  lemma {:induction false} AncestorIsPrefix(t: Tree, root: Path, p: Path)
    requires root <= p && Lstat(t, root).Found?
    ensures var a := Ancestor(t, root, p);
            && root <= a <= p && Lstat(t, a).Found?
            && (a != p ==> !Lstat(t, p[..|a| + 1]).Found?)
    decreases |p|
  {
    ContainedMeansBelow(root, p);
    assert !Contained(root, p) ==> p == root;
    if !Lstat(t, p).Found? && p != [] && Contained(root, p) {
      AncestorIsPrefix(t, root, Parent(p));
      var a := Ancestor(t, root, Parent(p));
      if a == Parent(p) {
        assert p[..|a| + 1] == p;
      } else {
        assert p[..|a| + 1] == Parent(p)[..|a| + 1];
      }
    }
  }

  lemma AcceptedIsAnchored(t: Tree, root: Path, dest: Path)
    requires ExistingRoot(t, root) && AllPlain(dest) && Reachable(t, root, dest)
    ensures exists k, place :: Anchored(t, root, dest, k, place)
  {
    ContainedMeansBelow(root, dest);
    var above := Parent(dest);
    AncestorIsPrefix(t, root, above);
    var k := |Ancestor(t, root, above)|;
    assert dest[..k] == Ancestor(t, root, above);
    var place := EvalSymlinks(t, dest[..k]).path;
    ContainedMeansBelow(root, place);
    AncestorPlace(t, dest, k);
    if k < |above| {
      assert above[..k + 1] == dest[..k + 1];
    }
    NoLinksBelow(t, dest, k, place);
    assert Anchored(t, root, dest, k, place);
  }

  /** The kernel takes the ancestor to the directory that EvalSymlinks names. */
  lemma AncestorPlace(t: Tree, dest: Path, k: nat)
    requires WellFormed(t) && k < |dest| && EvalSymlinks(t, dest[..k]).Found? && !Lstat(t, dest).Refused?
    ensures Stat(t, dest[..k]).Found? && Stat(t, dest[..k]).path == EvalSymlinks(t, dest[..k]).path
    ensures IsDir(t, Stat(t, dest[..k]).path)
  {
    assert dest == dest[..k] + dest[k..];
    WalkSplit(t, [], dest[..k], dest[k..], false, KERNEL_LINKS);
    WalkBudget(t, [], dest[..k], KERNEL_LINKS, EVAL_LINKS - KERNEL_LINKS);
  }

  lemma NoLinksBelow(t: Tree, dest: Path, k: nat, place: Path)
    requires WellFormed(t) && AllPlain(dest) && k < |dest| && IsDir(t, place)
    requires Stat(t, dest[..k]).Found? && Stat(t, dest[..k]).path == place
    requires k < |dest| - 1 ==> !Lstat(t, dest[..k + 1]).Found?
    requires match Lstat(t, dest)
             case Found(p, _) => p in t && !t[p].Link?
             case Missing(_, _) => true
             case Refused => false
    ensures NoLinks(t, place, dest[k..])
  {
    var names := dest[k..];
    if k == |dest| - 1 {
      assert dest == dest[..k] + names;
      WalkSplit(t, [], dest[..k], names, false, KERNEL_LINKS);
      LastIsNoLink(t, place, names, Stat(t, dest[..k]).left);
    } else {
      assert dest[..k + 1] == dest[..k] + [dest[k]];
      WalkSplit(t, [], dest[..k], [dest[k]], false, KERNEL_LINKS);
      assert place + [dest[k]] !in t;
      forall j | 0 < j <= |names|
        ensures place + names[..j] !in t
      {
        assert names[..j][0] == dest[k];
        NothingBelow(t, place + [dest[k]], place + names[..j]);
      }
    }
  }

  lemma LastIsNoLink(t: Tree, place: Path, names: seq<string>, links: nat)
    requires |names| == 1 && Plain(names[0])
    requires match Walk(t, place, names, false, links)
             case Found(p, _) => p in t && !t[p].Link?
             case Missing(_, _) => true
             case Refused => false
    ensures NoLinks(t, place, names)
  {
    assert names[..1] == names == [names[0]];
  }

  lemma AnchoredGrows(t: Tree, u: Tree, root: Path, dest: Path, k: nat, place: Path)
    requires Anchored(t, root, dest, k, place) && Grows(t, u)
    ensures Anchored(u, root, dest, k, place)
  {
    WalkGrows(t, u, [], dest[..k], KERNEL_LINKS);
  }

  /** Where a lookup in the directory of `dest` ends: at that physical directory below the root. */
  lemma AnchoredLookup(t: Tree, root: Path, dest: Path, k: nat, place: Path, name: string)
    requires WellFormed(t) && Anchored(t, root, dest, k, place) && Plain(name)
    ensures var dir := place + dest[k..|dest| - 1];
            && root < dir + [name]
            && match Lstat(t, Parent(dest) + [name])
               case Found(p, _) => p == dir + [name] && p in t && IsDir(t, dir)
               case Missing(p, last) => last ==> p == dir + [name] && p !in t && IsDir(t, dir)
               case Refused => true
  {
    var n := |dest| - 1;
    var middle := dest[k..n];
    var dir := place + middle;
    assert Parent(dest) + [name] == dest[..k] + (middle + [name]);
    WalkSplit(t, [], dest[..k], middle + [name], false, KERNEL_LINKS);
    var left := Stat(t, dest[..k]).left;
    WalkSplit(t, place, middle, [name], false, left);
    forall j | 0 < j <= |middle|
      ensures middle[..j] == dest[k..][..j]
    {
    }
    assert NoLinks(t, place, middle);
    PlainWalk(t, place, middle, true, left);
    WalkLands(t, [], Parent(dest) + [name], false, KERNEL_LINKS);
  }

  lemma AnchoredStat(t: Tree, root: Path, dest: Path, k: nat, place: Path, j: nat)
    requires WellFormed(t) && Anchored(t, root, dest, k, place) && k < j < |dest|
    ensures match Lstat(t, dest[..j])
            case Missing(p, last) => last ==> p == place + dest[k..j] && root < p
            case _ => true
  {
    assert dest[..j] == dest[..k] + dest[k..j];
    WalkSplit(t, [], dest[..k], dest[k..j], false, KERNEL_LINKS);
    forall i | 0 < i <= j - k
      ensures dest[k..j][..i] == dest[k..][..i]
    {
    }
    PlainWalk(t, place, dest[k..j], false, Stat(t, dest[..k]).left);
  }

  /** Looking one plain name up in a directory already reached. */
  lemma DirectLookup(t: Tree, above: Path, name: string)
    requires WellFormed(t) && Stat(t, above).Found? && IsDir(t, Stat(t, above).path) && Plain(name)
    ensures var child := Stat(t, above).path + [name];
            Lstat(t, above + [name]) ==
              if child in t then Found(child, Stat(t, above).left) else Missing(child, true)
  {
    WalkSplit(t, [], above, [name], false, KERNEL_LINKS);
    var dir := Stat(t, above).path;
    if dir + [name] in t {
      assert Walk(t, dir + [name], [], false, Stat(t, above).left).Found?;
    }
  }

  /** A lookup that reached its last name keeps reaching the same place. */
  lemma LookupKept(t: Tree, u: Tree, above: Path, name: string)
    requires WellFormed(t) && WellFormed(u) && Keeps(t, u) && Plain(name)
    requires Lstat(t, above + [name]).Found? || (Lstat(t, above + [name]).Missing? && Lstat(t, above + [name]).last)
    ensures Stat(t, above).Found? && IsDir(t, Stat(t, above).path) && Stat(u, above) == Stat(t, above)
    ensures Lstat(t, above + [name]).path == Stat(t, above).path + [name]
    ensures var p := Lstat(t, above + [name]).path;
            Lstat(u, above + [name]) == if p in u then Found(p, Stat(t, above).left) else Missing(p, true)
  {
    WalkSplit(t, [], above, [name], false, KERNEL_LINKS);
    WalkGrows(t, u, [], above, KERNEL_LINKS);
    DirectLookup(t, above, name);
    DirectLookup(u, above, name);
  }

  // ----- the disk

  /** Which step of an atomic write the operating system refuses, if any. */
  datatype Fault = NoFault | OnOpen | OnWrite | OnClose | OnChmod | OnRename | OnFinalChmod

  /** `touched` holds every physical path at which an entry was ever created, written, replaced or removed. */
  class Disk {
    var tree: Tree
    ghost var touched: set<Path>

    constructor (tree: Tree)
      ensures this.tree == tree && touched == {}
    {
      this.tree := tree;
      touched := {};
    }

    method Mkdir(p: Path) returns (ok: bool)
      requires WellFormed(tree)
      modifies this
      ensures ok <==> old(Lstat(tree, p)).Missing? && old(Lstat(tree, p)).last
      ensures ok ==> old(Lstat(tree, p)).path !in old(tree)
      ensures ok ==> tree == old(tree)[old(Lstat(tree, p)).path := Dir]
      ensures ok ==> touched == old(touched) + {old(Lstat(tree, p)).path}
      ensures !ok ==> tree == old(tree) && touched == old(touched)
      ensures Grows(old(tree), tree)
    {
      WalkLands(tree, [], p, false, KERNEL_LINKS);
      match Lstat(tree, p)
      case Missing(q, last) =>
        if last {
          PutGrows(tree, q, Dir);
          tree, touched := tree[q := Dir], touched + {q};
          return true;
        }
        return false;
      case _ =>
        return false;
    }

    /** `k` counts the leading names of `p` under which every new directory is promised to stay. */
    method MkdirAll(p: Path, ghost root: Path, ghost dest: Path, ghost k: nat, ghost place: Path) returns (ok: bool)
      requires WellFormed(tree)
      modifies this
      ensures Grows(old(tree), tree)
      ensures ok ==> Stat(tree, p).Found? && IsDir(tree, Stat(tree, p).path)
      ensures old(touched) <= touched && forall q :: q in touched - old(touched) ==> IsDir(tree, q)
      ensures forall q :: q in old(tree) ==> q in tree && tree[q] == old(tree)[q]
      ensures Anchored(old(tree), root, dest, k, place) && k <= |p| < |dest| && p == dest[..|p|] ==>
                forall q :: q in touched - old(touched) ==> root < q
      decreases |p|
    {
      WalkLands(tree, [], p, true, KERNEL_LINKS);
      var there := Stat(tree, p);
      if there.Found? {
        return tree[there.path] == Dir;
      }
      if p == [] {
        return false;
      }
      ghost var before := tree;
      ghost var anchored := Anchored(before, root, dest, k, place) && k <= |p| < |dest| && p == dest[..|p|];
      assert anchored ==> k < |p|;
      assert Parent(p) == p[..|p| - 1];
      ok := MkdirAll(Parent(p), root, dest, k, place);
      assert anchored ==> forall q :: q in touched - old(touched) ==> root < q;
      if !ok {
        return;
      }
      if anchored {
        AnchoredGrows(before, tree, root, dest, k, place);
        AnchoredStat(tree, root, dest, k, place, |p|);
      }
      ghost var between := tree;
      ghost var inside := touched;
      ok := Mkdir(p);
      assert ok && anchored ==> root < Lstat(between, p).path;
      assert forall q :: q in touched - old(touched) ==> q in inside - old(touched) || (ok && q == Lstat(between, p).path);
      if ok {
        WalkPut(between, [], p, KERNEL_LINKS, Dir);
        WalkNoLink(tree, [], p, KERNEL_LINKS);
      } else {
        WalkLands(tree, [], p, false, KERNEL_LINKS);
        var here := Lstat(tree, p);
        if here.Found? && tree[here.path] == Dir {
          WalkNoLink(tree, [], p, KERNEL_LINKS);
          return true;
        }
      }
    }

    /**
      Write beside the destination and rename over it. The destination changes at once and completely
      or not at all, and nothing is left beside it; only a refused final chmod fails after the change.
    */
    method WriteAtomic(dest: Path, content: seq<int>, mode: int, suffix: string, fault: Fault,
                       ghost root: Path, ghost k: nat, ghost place: Path) returns (ok: bool)
      requires WellFormed(tree) && Anchored(tree, root, dest, k, place) && |suffix| > 2
      modifies this
      ensures Grows(old(tree), tree)
      ensures old(touched) <= touched && forall q :: q in touched - old(touched) ==> root < q
      ensures ok ==> tree == old(tree)[place + dest[k..] := File(content, mode)]
      ensures ok ==> Lstat(tree, dest).Found? && Lstat(tree, dest).path == place + dest[k..]
      ensures !ok ==> tree == old(tree)
                      || (fault == OnFinalChmod && tree == old(tree)[place + dest[k..] := File(content, mode)])
    {
      var (above, side) := (Parent(dest), dest[|dest| - 1] + suffix);
      ghost var before := tree;
      AnchoredLookup(tree, root, dest, k, place, side);
      assert Grows(before, before) && Plain(side) && side != dest[|dest| - 1];
      hide Walk, WellFormed, Grows, NoLinks, Plain, Anchored;
      if fault == OnOpen {
        return false;
      }
      ok := OpenExclusive(above + [side], mode);
      if !ok {
        return false;
      }
      var temp := Lstat(tree, above + [side]).path;
      RenameTarget(before, root, dest, k, place, side, File(content, mode));
      if fault == OnWrite {
        RemoveAdded(before, temp, tree[temp]);
        tree := tree - {temp};
        return false;
      }
      tree := tree[temp := File(content, mode)];
      assert tree == before[temp := File(content, mode)];
      if fault == OnClose || fault == OnChmod {
        RemoveAdded(before, temp, tree[temp]);
        tree := tree - {temp};
        return false;
      }
      var there := Lstat(tree, dest);
      if fault == OnRename || there.Refused? || (there.Missing? && !there.last) || (there.Found? && tree[there.path] == Dir) {
        RemoveAdded(before, temp, tree[temp]);
        tree := tree - {temp};
        return false;
      }
      RemoveAdded(before, temp, tree[temp]);
      tree, touched := (tree - {temp})[there.path := tree[temp]], touched + {there.path};
      return fault != OnFinalChmod;
    }

    method OpenExclusive(p: Path, mode: int) returns (ok: bool)
      requires WellFormed(tree)
      modifies this
      ensures ok <==> old(Lstat(tree, p)).Missing? && old(Lstat(tree, p)).last
      ensures ok ==> var q := old(Lstat(tree, p)).path;
                && q !in old(tree) && tree == old(tree)[q := File([], mode)] && touched == old(touched) + {q}
                && Lstat(tree, p).Found? && Lstat(tree, p).path == q
      ensures !ok ==> tree == old(tree) && touched == old(touched)
      ensures Grows(old(tree), tree)
    {
      WalkLands(tree, [], p, false, KERNEL_LINKS);
      match Lstat(tree, p)
      case Missing(q, last) =>
        if last {
          PutGrows(tree, q, File([], mode));
          WalkPut(tree, [], p, KERNEL_LINKS, File([], mode));
          tree, touched := tree[q := File([], mode)], touched + {q};
          return true;
        }
        return false;
      case _ =>
        return false;
    }
  }

  lemma RemoveAdded(t: Tree, p: Path, node: Node)
    requires p !in t
    ensures t[p := node] - {p} == t
  {
  }

  /** Where the rename goes once the temporary file `side` stands beside the destination. */
  lemma RenameTarget(t: Tree, root: Path, dest: Path, k: nat, place: Path, side: string, file: Node)
    requires WellFormed(t) && Anchored(t, root, dest, k, place) && Plain(side) && side != dest[|dest| - 1]
    requires Lstat(t, Parent(dest) + [side]).Missing? && Lstat(t, Parent(dest) + [side]).last && file.File?
    ensures Stat(t, Parent(dest)).Found?
    ensures var temp := Lstat(t, Parent(dest) + [side]).path;
            var u := t[temp := file];
            var target := place + dest[k..];
            && temp != target && root < target && root < temp
            && Lstat(u, dest) == (if target in t then Found(target, Stat(t, Parent(dest)).left) else Missing(target, true))
            && (!IsDir(t, target) ==>
                  && Grows(t, t[target := file])
                  && Lstat(t[target := file], dest) == Found(target, Stat(t, Parent(dest)).left))
  {
    var (above, name) := (Parent(dest), dest[|dest| - 1]);
    assert dest == above + [name] && place + dest[k..] == place + dest[k..|dest| - 1] + [name];
    var temp := Lstat(t, above + [side]).path;
    var target := place + dest[k..];
    AnchoredLookup(t, root, dest, k, place, side);
    AnchoredLookup(t, root, dest, k, place, name);
    LookupKept(t, t, above, side);
    PutGrows(t, temp, file);
    WalkGrows(t, t[temp := file], [], above, KERNEL_LINKS);
    DirectLookup(t[temp := file], above, name);
    NotALink(t, dest, k, place);
    if !IsDir(t, target) {
      PutGrows(t, target, file);
      WalkGrows(t, t[target := file], [], above, KERNEL_LINKS);
      DirectLookup(t[target := file], above, name);
    }
  }

  lemma NotALink(t: Tree, dest: Path, k: nat, place: Path)
    requires k < |dest| && NoLinks(t, place, dest[k..])
    ensures place + dest[k..] in t ==> !t[place + dest[k..]].Link?
  {
    assert dest[k..][..|dest| - k] == dest[k..];
  }

  // ----- the whole write

  function DestOf(root: Path, f: SecretFile): Path {
    Join(root, Split(f.path))
  }

  /** File `i` is in place, unless a later one of the first `n` went to the same place. */
  ghost predicate Delivered(t: Tree, root: Path, files: seq<SecretFile>, i: nat, n: nat)
    requires i < n <= |files|
  {
    var there := Lstat(t, DestOf(root, files[i]));
    there.Found? && exists j :: i <= j < n && Delivers(t, there.path, root, files[j])
  }

  ghost predicate Delivers(t: Tree, p: Path, root: Path, f: SecretFile) {
    && Lstat(t, DestOf(root, f)).Found? && Lstat(t, DestOf(root, f)).path == p && p in t
    && f.content.Bytes? && ModeOf(f.mode).Some?
    && t[p] == File(f.content.bytes, ModeOf(f.mode).value)
  }

  ghost predicate AllDelivered(t: Tree, root: Path, files: seq<SecretFile>, n: nat)
    requires n <= |files|
  {
    forall i :: 0 <= i < n ==> Delivered(t, root, files, i, n)
  }

  lemma AllDeliveredNext(t: Tree, u: Tree, root: Path, files: seq<SecretFile>, n: nat, target: Path)
    requires WellFormed(t) && Grows(t, u) && AllPlain(root)
    requires n < |files| && AllDelivered(t, root, files, n)
    requires forall j :: 0 <= j < |files| ==> root < DestOf(root, files[j])
    requires forall q :: q in t && q != target ==> q in u && u[q] == t[q]
    requires Delivers(u, target, root, files[n])
    ensures AllDelivered(u, root, files, n + 1)
  {
    var next := n + 1;
    forall i | 0 <= i < next
      ensures Delivered(u, root, files, i, next)
    {
      if i < n {
        DeliveredKept(t, u, root, files, i, n, target);
      }
    }
  }

  lemma DeliveredKept(t: Tree, u: Tree, root: Path, files: seq<SecretFile>, i: nat, n: nat, target: Path)
    requires WellFormed(t) && Grows(t, u) && AllPlain(root)
    requires i < n < |files| && Delivered(t, root, files, i, n)
    requires forall j :: 0 <= j <= n ==> root < DestOf(root, files[j])
    requires forall q :: q in t && q != target ==> q in u && u[q] == t[q]
    requires Delivers(u, target, root, files[n])
    ensures Delivered(u, root, files, i, n + 1)
  {
    var p := Lstat(t, DestOf(root, files[i])).path;
    var j :| i <= j < n && Delivers(t, p, root, files[j]);
    SamePlace(t, u, root, files[i]);
    SamePlace(t, u, root, files[j]);
    if p == target {
      assert Delivers(u, p, root, files[n]);
    } else {
      assert Delivers(u, p, root, files[j]);
    }
  }

  lemma SamePlace(t: Tree, u: Tree, root: Path, f: SecretFile)
    requires WellFormed(t) && WellFormed(u) && Keeps(t, u) && AllPlain(root)
    requires root < DestOf(root, f) && Lstat(t, DestOf(root, f)).Found?
    requires Lstat(t, DestOf(root, f)).path in u
    ensures Lstat(u, DestOf(root, f)) == Lstat(t, DestOf(root, f))
  {
    var dest := DestOf(root, f);
    JoinIsPlain(root, Split(f.path));
    assert dest == Parent(dest) + [dest[|dest| - 1]];
    LookupKept(t, t, Parent(dest), dest[|dest| - 1]);
    LookupKept(t, u, Parent(dest), dest[|dest| - 1]);
  }

  /** Everything touched since `before` lies strictly below the root. */
  ghost predicate Inside(root: Path, before: set<Path>, now: set<Path>) {
    before <= now && forall q :: q in now - before ==> root < q
  }

  lemma InsideTransitive(root: Path, a: set<Path>, b: set<Path>, c: set<Path>)
    requires Inside(root, a, b) && Inside(root, b, c)
    ensures Inside(root, a, c)
  {
    assert forall q :: q in c - a ==> q in c - b || q in b - a;
  }

  function StagedOf(root: Path, f: SecretFile): Staged
    requires f.content.Bytes? && ModeOf(f.mode).Some?
  {
    Staged(f.path, DestOf(root, f), f.content.bytes, ModeOf(f.mode).value)
  }

  datatype WriteError = NotStaged(index: nat, reason: StageError) | NotWritten(index: nat)

  ghost predicate AllStaged(t: Tree, root: Path, files: seq<SecretFile>, staged: seq<Staged>, n: nat)
    requires n <= |files|
  {
    |staged| == n
    && forall j :: 0 <= j < n ==> Accepts(t, root, files[j]) && staged[j] == StagedOf(root, files[j])
  }

  method StageAll(disk: Disk, root: Path, files: seq<SecretFile>) returns (staged: seq<Staged>, error: Option<WriteError>)
    requires ExistingRoot(disk.tree, root)
    ensures error == None ==> AllStaged(disk.tree, root, files, staged, |files|)
    ensures error.Some? ==>
              && error.value.NotStaged? && error.value.index < |files|
              && !Accepts(disk.tree, root, files[error.value.index])
    ensures error.Some? <==> exists f <- files :: !Accepts(disk.tree, root, f)
  {
    staged := [];
    for i := 0 to |files|
      invariant AllStaged(disk.tree, root, files, staged, i)
    {
      var s := StageSecretFile(disk, root, files[i]);
      if s.Err? {
        return staged, Some(NotStaged(i, s.error));
      }
      staged := staged + [s.value];
    }
    error := None;
  }

  lemma AllBelow(t: Tree, root: Path, files: seq<SecretFile>, staged: seq<Staged>)
    requires AllStaged(t, root, files, staged, |files|)
    ensures forall j :: 0 <= j < |files| ==> root < DestOf(root, files[j])
  {
    forall j | 0 <= j < |files|
      ensures root < DestOf(root, files[j])
    {
      ContainedMeansBelow(root, DestOf(root, files[j]));
    }
  }

  lemma StagedAt(t: Tree, root: Path, files: seq<SecretFile>, staged: seq<Staged>, n: nat)
    requires n < |files| && AllStaged(t, root, files, staged, |files|)
    ensures n < |staged| == |files| && Accepts(t, root, files[n])
    ensures files[n].content.Bytes? && ModeOf(files[n].mode).Some? && staged[n] == StagedOf(root, files[n])
    ensures staged[n].path == files[n].path
  {
  }

  /** Write one staged file, `t` being the tree at the time of staging. */
  method WriteOne(disk: Disk, root: Path, s: Staged, suffix: string, fault: Fault, ghost t: Tree, ghost f: SecretFile)
    returns (ok: bool)
    requires ExistingRoot(t, root) && Accepts(t, root, f) && s == StagedOf(root, f)
    requires Grows(t, disk.tree) && |suffix| > 2
    modifies disk
    ensures Grows(old(disk.tree), disk.tree) && Grows(t, disk.tree)
    ensures Inside(root, old(disk.touched), disk.touched)
    ensures WellFormed(disk.tree)
    ensures ok ==> Lstat(disk.tree, s.dest).Found?
    ensures ok ==> var target := Lstat(disk.tree, s.dest).path;
              && Delivers(disk.tree, target, root, f)
              && forall q :: q in old(disk.tree) && q != target ==> q in disk.tree && disk.tree[q] == old(disk.tree)[q]
  {
    JoinIsPlain(root, Split(f.path));
    AcceptedIsAnchored(t, root, s.dest);
    ghost var k: nat, place: Path :| Anchored(t, root, s.dest, k, place);
    ghost var before, touched := disk.tree, disk.touched;
    AnchoredGrows(t, before, root, s.dest, k, place);
    assert Parent(s.dest) == s.dest[..|Parent(s.dest)|];
    ok := disk.MkdirAll(Parent(s.dest), root, s.dest, k, place);
    assert Inside(root, touched, disk.touched);
    ghost var between, made := disk.tree, disk.touched;
    GrowsTransitive(t, before, between);
    if !ok {
      return;
    }
    AnchoredGrows(t, between, root, s.dest, k, place);
    ok := disk.WriteAtomic(s.dest, s.content, s.mode, suffix, fault, root, k, place);
    assert Inside(root, made, disk.touched);
    InsideTransitive(root, touched, made, disk.touched);
    GrowsTransitive(before, between, disk.tree);
    GrowsTransitive(t, before, disk.tree);
  }

  /** The first `n` files are delivered and nothing has been touched outside the root. */
  ghost predicate Progress(t: Tree, touched: set<Path>, tree: Tree, now: set<Path>, root: Path, files: seq<SecretFile>, n: nat) {
    n <= |files| && WellFormed(tree) && Grows(t, tree) && Inside(root, touched, now) && AllDelivered(tree, root, files, n)
  }

  lemma ProgressParts(t: Tree, touched: set<Path>, tree: Tree, now: set<Path>, root: Path, files: seq<SecretFile>, n: nat)
    requires Progress(t, touched, tree, now, root, files, n)
    ensures n <= |files| && WellFormed(tree) && Grows(t, tree) && Inside(root, touched, now) && AllDelivered(tree, root, files, n)
  {
  }

  lemma MakeProgress(t: Tree, touched: set<Path>, tree: Tree, now: set<Path>, root: Path, files: seq<SecretFile>, n: nat)
    requires n <= |files| && WellFormed(tree) && Grows(t, tree) && Inside(root, touched, now) && AllDelivered(tree, root, files, n)
    ensures Progress(t, touched, tree, now, root, files, n)
  {
  }

  method WriteNth(disk: Disk, root: Path, staged: seq<Staged>, files: seq<SecretFile>, n: nat, suffix: string, fault: Fault,
                  ghost t: Tree, ghost start: set<Path>)
    returns (ok: bool)
    requires ExistingRoot(t, root) && AllStaged(t, root, files, staged, |files|) && n < |files| == |staged| && |suffix| > 2
    requires Progress(t, start, disk.tree, disk.touched, root, files, n)
    modifies disk
    ensures Grows(t, disk.tree) && Inside(root, start, disk.touched)
    ensures ok ==> Progress(t, start, disk.tree, disk.touched, root, files, n + 1)
  {
    ghost var before, touched := disk.tree, disk.touched;
    StagedAt(t, root, files, staged, n);
    AllBelow(t, root, files, staged);
    ProgressParts(t, start, before, touched, root, files, n);
    ok := WriteOne(disk, root, staged[n], suffix, fault, t, files[n]);
    hide Grows, WellFormed, Inside, Accepts, AllStaged, AllDelivered, Delivered, Delivers, ExistingRoot, AllPlain, Walk, Lstat, Progress;
    InsideTransitive(root, start, touched, disk.touched);
    if ok {
      AllDeliveredNext(before, disk.tree, root, files, n, Lstat(disk.tree, staged[n].dest).path);
      MakeProgress(t, start, disk.tree, disk.touched, root, files, n + 1);
    }
  }

  /**
    Stage every file, then write every file. `suffixes` are the random endings of the temporary names
    and `faults` the failures the operating system injects.
  */
  method WriteStaged(disk: Disk, root: Path, files: seq<SecretFile>, suffixes: nat -> string, faults: nat -> Fault)
    returns (written: seq<string>, error: Option<WriteError>)
    requires ExistingRoot(disk.tree, root)
    requires forall i :: |suffixes(i)| > 2
    modifies disk
    ensures Grows(old(disk.tree), disk.tree)
    ensures Inside(root, old(disk.touched), disk.touched)
    ensures error.Some? && error.value.NotStaged? <==> exists f <- files :: !Accepts(old(disk.tree), root, f)
    ensures error.Some? && error.value.NotStaged? ==>
              written == [] && disk.tree == old(disk.tree) && disk.touched == old(disk.touched)
    ensures |written| <= |files| && forall i :: 0 <= i < |written| ==> written[i] == files[i].path
    ensures error == None ==> |written| == |files| && AllDelivered(disk.tree, root, files, |files|)
  {
    written := [];
    ghost var t := disk.tree;
    var staged;
    staged, error := StageAll(disk, root, files);
    if error.Some? {
      return [], error;
    }
    AllBelow(t, root, files, staged);
    assert WellFormed(t) && AllPlain(root) && Grows(t, t) && Inside(root, disk.touched, disk.touched);
    assert AllDelivered(t, root, files, 0);
    assert |staged| == |files|;
    assert Progress(t, disk.touched, disk.tree, disk.touched, root, files, 0);
    hide *;
    for n := 0 to |staged|
      invariant |written| == n && forall i :: 0 <= i < n ==> written[i] == files[i].path
      invariant Progress(t, old(disk.touched), disk.tree, disk.touched, root, files, n)
    {
      StagedAt(t, root, files, staged, n);
      var ok := WriteNth(disk, root, staged, files, n, suffixes(n), faults(n), t, old(disk.touched));
      if !ok {
        return written, Some(NotWritten(n));
      }
      written := written + [staged[n].path];
    }
    ProgressParts(t, old(disk.touched), disk.tree, disk.touched, root, files, |files|);
  }

  /**
    `dir` is an absolute path; the files land strictly below the place it resolves to. `made` and `ready`
    are what has been touched and the tree once that directory exists.
  */
  method WriteSecretFiles(disk: Disk, dir: Path, files: seq<SecretFile>, suffixes: nat -> string, faults: nat -> Fault)
    returns (written: seq<string>, error: Option<WriteError>, prepared: bool, ghost root: Path, ghost made: set<Path>, ghost ready: Tree)
    requires WellFormed(disk.tree) && forall i :: |suffixes(i)| > 2
    modifies disk
    ensures Grows(old(disk.tree), disk.tree)
    ensures !prepared ==> written == [] && made == disk.touched
    ensures prepared ==> EvalSymlinks(disk.tree, dir).Found? && EvalSymlinks(disk.tree, dir).path == root
    ensures prepared ==> Inside(root, made, disk.touched)
    ensures forall q :: q in made - old(disk.touched) ==> IsDir(disk.tree, q)
    ensures prepared && error == None ==> |written| == |files| && AllDelivered(disk.tree, root, files, |files|)
    ensures prepared && error.Some? && error.value.NotStaged? ==> written == [] && disk.touched == made && disk.tree == ready
    ensures prepared ==> (error.Some? && error.value.NotStaged? <==> exists f <- files :: !Accepts(ready, root, f))
  {
    written, error, root := [], None, [];
    prepared := disk.MkdirAll(dir, [], [], 0, []);
    made, ready := disk.touched, disk.tree;
    if !prepared {
      return;
    }
    ghost var t := disk.tree;
    WalkBudget(t, [], dir, KERNEL_LINKS, EVAL_LINKS - KERNEL_LINKS);
    var absoluteRoot := EvalSymlinks(disk.tree, dir).path;
    root := absoluteRoot;
    PhysicalWalk(t, root, false, KERNEL_LINKS);
    written, error := WriteStaged(disk, absoluteRoot, files, suffixes, faults);
    WalkGrows(t, disk.tree, [], dir, EVAL_LINKS);
    GrowsTransitive(old(disk.tree), t, disk.tree);
  }
}
