/**
  A file system with symbolic links, as the kernel resolves it. A node sits at its physical path: the
  names from the root through real directories. Nobody else changes the tree.
*/
module FileTree {
  import opened Prelude

  type Path = seq<string>

  datatype Target = Target(absolute: bool, names: seq<string>)

  datatype Node = Dir | File(content: seq<int>, mode: int) | Link(target: Target)

  type Tree = map<Path, Node>

  /** How many links Linux follows in one lookup, and how many filepath.EvalSymlinks follows. */
  const KERNEL_LINKS: nat := 40
  const EVAL_LINKS: nat := 255

  function Parent(p: Path): Path {
    if p == [] then [] else p[..|p| - 1]
  }

  /** The node at `p` hangs in a directory, under a plain name. */
  ghost predicate Hung(t: Tree, p: Path) {
    p != [] ==> IsDir(t, Parent(p)) && Plain(p[|p| - 1])
  }

  ghost predicate WellFormed(t: Tree) {
    && IsDir(t, [])
    && forall p {:trigger Hung(t, p)} :: p in t ==> Hung(t, p)
  }

  predicate IsDir(t: Tree, p: Path) {
    p in t && t[p] == Dir
  }

  /** A name that means an entry of the current directory. */
  predicate Plain(name: string) {
    name != "" && name != "." && name != ".."
  }

  ghost predicate AllPlain(names: seq<string>) {
    forall i :: 0 <= i < |names| ==> Plain(names[i])
  }

  /** `Missing.last` tells whether only the final name is absent. */
  datatype Walked = Found(path: Path, left: nat) | Missing(path: Path, last: bool) | Refused

  /** Look `names` up from directory `at`; a link in final position is resolved only when `follow`. */
  function Walk(t: Tree, at: Path, names: seq<string>, follow: bool, links: nat): Walked
    decreases links, |names|
  {
    if names == [] then Found(at, links)
    else
      var (name, rest) := (names[0], names[1..]);
      if name == "" || name == "." then Walk(t, at, rest, follow, links)
      else if name == ".." then Walk(t, Parent(at), rest, follow, links)
      else
        var child := at + [name];
        if child !in t then Missing(child, rest == [])
        else match t[child]
          case Dir => Walk(t, child, rest, follow, links)
          case File(_, _) => if rest == [] then Found(child, links) else Refused
          case Link(target) =>
            if rest == [] && !follow then Found(child, links)
            else if links == 0 then Refused
            else Walk(t, if target.absolute then [] else at, target.names + rest, follow, links - 1)
  }

  function Lstat(t: Tree, p: Path): Walked {
    Walk(t, [], p, false, KERNEL_LINKS)
  }

  function Stat(t: Tree, p: Path): Walked {
    Walk(t, [], p, true, KERNEL_LINKS)
  }

  function EvalSymlinks(t: Tree, p: Path): Walked {
    Walk(t, [], p, true, EVAL_LINKS)
  }

  // ----- facts about lookups

  lemma {:induction false} WalkLands(t: Tree, at: Path, names: seq<string>, follow: bool, links: nat)
    requires WellFormed(t) && IsDir(t, at)
    ensures match Walk(t, at, names, follow, links)
            case Found(p, left) => p in t && left <= links && (follow ==> !t[p].Link?)
            case Missing(p, last) => p != [] && p !in t && IsDir(t, Parent(p)) && Plain(p[|p| - 1])
            case Refused => true
    decreases links, |names|
  {
    assert IsDir(t, []) && Hung(t, at);
    hide WellFormed;
    if names != [] {
      var (name, rest) := (names[0], names[1..]);
      if name == "" || name == "." {
        WalkLands(t, at, rest, follow, links);
      } else if name == ".." {
        WalkLands(t, Parent(at), rest, follow, links);
      } else {
        var child := at + [name];
        assert Parent(child) == at;
        if child in t && t[child] == Dir {
          WalkLands(t, child, rest, follow, links);
        } else if child in t && t[child].Link? && links > 0 {
          WalkLands(t, if t[child].target.absolute then [] else at, t[child].target.names + rest, follow, links - 1);
        }
      }
    }
  }

  /** A lookup in two stages. */
  lemma {:induction false} WalkSplit(t: Tree, at: Path, a: seq<string>, b: seq<string>, follow: bool, links: nat)
    requires WellFormed(t) && IsDir(t, at) && b != []
    ensures Walk(t, at, a + b, follow, links) ==
              match Walk(t, at, a, true, links)
              case Found(p, left) => if IsDir(t, p) then Walk(t, p, b, follow, left) else Refused
              case Missing(p, last) => Missing(p, false)
              case Refused => Refused
    decreases links, |a|
  {
    if a == [] {
      assert a + b == b;
    } else {
      var (name, rest) := (a[0], a[1..]);
      assert (a + b)[0] == name && (a + b)[1..] == rest + b;
      if name == "" || name == "." {
        WalkSplit(t, at, rest, b, follow, links);
      } else if name == ".." {
        assert Hung(t, at);
        WalkSplit(t, Parent(at), rest, b, follow, links);
      } else {
        var child := at + [name];
        if child in t && t[child] == Dir {
          WalkSplit(t, child, rest, b, follow, links);
        } else if child in t && t[child].Link? && links > 0 {
          var target := t[child].target;
          assert target.names + (rest + b) == (target.names + rest) + b;
          WalkSplit(t, if target.absolute then [] else at, target.names + rest, b, follow, links - 1);
        }
      }
    }
  }

  /** A larger link budget changes nothing but a refusal. */
  lemma {:induction false} WalkBudget(t: Tree, at: Path, names: seq<string>, links: nat, more: nat)
    requires !Walk(t, at, names, true, links).Refused?
    ensures Walk(t, at, names, true, links + more) ==
              match Walk(t, at, names, true, links)
              case Found(p, left) => Found(p, left + more)
              case Missing(p, last) => Missing(p, last)
              case Refused => Refused
    decreases links, |names|
  {
    if names != [] {
      var (name, rest) := (names[0], names[1..]);
      var child := at + [name];
      if name == "" || name == "." {
        WalkBudget(t, at, rest, links, more);
      } else if name == ".." {
        WalkBudget(t, Parent(at), rest, links, more);
      } else if child in t && t[child] == Dir {
        WalkBudget(t, child, rest, links, more);
      } else if child in t && t[child].Link? {
        WalkBudget(t, if t[child].target.absolute then [] else at, t[child].target.names + rest, links - 1, more);
      }
    }
  }

  /** No entry on the way down `names` from `at` is a link. */
  ghost predicate NoLinks(t: Tree, at: Path, names: seq<string>) {
    forall j :: 0 < j <= |names| && at + names[..j] in t ==> !t[at + names[..j]].Link?
  }

  lemma {:induction false} PlainWalk(t: Tree, at: Path, names: seq<string>, follow: bool, links: nat)
    requires AllPlain(names) && NoLinks(t, at, names)
    ensures match Walk(t, at, names, follow, links)
            case Found(p, left) => p == at + names && left == links
            case Missing(p, last) => at < p <= at + names && (last <==> p == at + names)
            case Refused => true
    decreases |names|
  {
    if names == [] {
      assert at + names == at;
    } else {
      var child := at + [names[0]];
      assert names[..1] == [names[0]];
      assert at + names == child + names[1..];
      if child in t && t[child] == Dir {
        forall j | 0 < j <= |names[1..]|
          ensures child + names[1..][..j] == at + names[..j + 1]
        {
          assert names[..j + 1] == [names[0]] + names[1..][..j];
        }
        PlainWalk(t, child, names[1..], follow, links);
      }
    }
  }

  // ----- trees that only gain directories and files

  ghost predicate Keeps(t: Tree, u: Tree) {
    forall p :: p in t && (t[p] == Dir || t[p].Link?) ==> p in u && u[p] == t[p]
  }

  /** Directories and links of `t` are still there, and there is no other link. */
  ghost predicate Grows(t: Tree, u: Tree) {
    && WellFormed(u)
    && Keeps(t, u)
    && (forall p :: p in u && u[p].Link? ==> p in t && t[p] == u[p])
  }

  lemma {:induction false} WalkGrows(t: Tree, u: Tree, at: Path, names: seq<string>, links: nat)
    requires Keeps(t, u) && Walk(t, at, names, true, links).Found?
    requires IsDir(t, Walk(t, at, names, true, links).path)
    ensures Walk(u, at, names, true, links) == Walk(t, at, names, true, links)
    decreases links, |names|
  {
    if names != [] {
      var (name, rest) := (names[0], names[1..]);
      var child := at + [name];
      if name == "" || name == "." {
        WalkGrows(t, u, at, rest, links);
      } else if name == ".." {
        WalkGrows(t, u, Parent(at), rest, links);
      } else if t[child] == Dir {
        WalkGrows(t, u, child, rest, links);
      } else if t[child].Link? {
        WalkGrows(t, u, if t[child].target.absolute then [] else at, t[child].target.names + rest, links - 1);
      }
    }
  }

  /** What is put where a lookup missed its last name is what the lookup finds next. */
  lemma {:induction false} WalkPut(t: Tree, at: Path, names: seq<string>, links: nat, node: Node)
    requires WellFormed(t) && IsDir(t, at) && !node.Link?
    requires Walk(t, at, names, false, links).Missing? && Walk(t, at, names, false, links).last
    ensures var q := Walk(t, at, names, false, links).path;
            Walk(t[q := node], at, names, false, links).Found? && Walk(t[q := node], at, names, false, links).path == q
    decreases links, |names|
  {
    assert IsDir(t, []) && Hung(t, at);
    var (name, rest) := (names[0], names[1..]);
    var child := at + [name];
    WalkLands(t, at, names, false, links);
    if name == "" || name == "." {
      WalkPut(t, at, rest, links, node);
    } else if name == ".." {
      WalkPut(t, Parent(at), rest, links, node);
    } else if child in t && t[child] == Dir {
      WalkPut(t, child, rest, links, node);
    } else if child in t && t[child].Link? {
      WalkPut(t, if t[child].target.absolute then [] else at, t[child].target.names + rest, links - 1, node);
    }
  }

  /** What is found without following the last name, and is no link, is also found by following it. */
  lemma {:induction false} WalkNoLink(t: Tree, at: Path, names: seq<string>, links: nat)
    requires WellFormed(t) && IsDir(t, at)
    requires Walk(t, at, names, false, links).Found?
    requires Walk(t, at, names, false, links).path in t && !t[Walk(t, at, names, false, links).path].Link?
    ensures Walk(t, at, names, true, links) == Walk(t, at, names, false, links)
    decreases links, |names|
  {
    assert IsDir(t, []) && Hung(t, at);
    if names != [] {
      var (name, rest) := (names[0], names[1..]);
      var child := at + [name];
      if name == "" || name == "." {
        WalkNoLink(t, at, rest, links);
      } else if name == ".." {
        WalkNoLink(t, Parent(at), rest, links);
      } else if t[child] == Dir {
        WalkNoLink(t, child, rest, links);
      } else if t[child].Link? {
        WalkNoLink(t, if t[child].target.absolute then [] else at, t[child].target.names + rest, links - 1);
      }
    }
  }

  lemma GrowsTransitive(t: Tree, u: Tree, v: Tree)
    requires Grows(t, u) && Grows(u, v)
    ensures Grows(t, v)
  {
  }

  /** Putting a directory or a file where neither a directory nor a link is. */
  lemma PutGrows(t: Tree, p: Path, node: Node)
    requires WellFormed(t) && p != [] && IsDir(t, Parent(p)) && !node.Link?
    requires p in t ==> t[p].File? && node.File?
    requires Plain(p[|p| - 1])
    ensures Grows(t, t[p := node])
  {
    var u := t[p := node];
    forall q | q in u
      ensures Hung(u, q)
    {
      assert q in t ==> Hung(t, q);
    }
  }

  // ----- physical paths

  lemma {:induction false} PrefixDirs(t: Tree, p: Path, j: nat)
    requires WellFormed(t) && p in t && j < |p|
    ensures IsDir(t, p[..j]) && Plain(p[j])
    decreases |p|
  {
    assert Hung(t, p);
    if j < |p| - 1 {
      PrefixDirs(t, Parent(p), j);
      assert Parent(p)[..j] == p[..j];
    }
  }

  lemma {:induction false} NothingBelow(t: Tree, p: Path, q: Path)
    requires WellFormed(t) && p !in t && p <= q
    ensures q !in t
  {
    assert q[..|p|] == p;
    if q in t && p != q {
      PrefixDirs(t, q, |p|);
    }
  }

  /** The physical path of a directory leads to it. */
  lemma PhysicalWalk(t: Tree, p: Path, follow: bool, links: nat)
    requires WellFormed(t) && IsDir(t, p)
    ensures AllPlain(p) && Walk(t, [], p, follow, links) == Found(p, links)
  {
    forall j | 0 <= j < |p|
      ensures IsDir(t, p[..j]) && Plain(p[j])
    {
      PrefixDirs(t, p, j);
    }
    forall j | 0 <= j <= |p|
      ensures IsDir(t, [] + p[..j])
    {
      assert [] + p[..j] == p[..j] && p[..|p|] == p;
    }
    assert [] + p == p;
    DirWalk(t, [], p, follow, links);
  }

  lemma {:induction false} DirWalk(t: Tree, at: Path, names: seq<string>, follow: bool, links: nat)
    requires AllPlain(names) && forall j :: 0 <= j <= |names| ==> IsDir(t, at + names[..j])
    ensures Walk(t, at, names, follow, links) == Found(at + names, links)
    decreases |names|
  {
    if names == [] {
      assert at + names == at;
    } else {
      var child := at + [names[0]];
      assert names[..1] == [names[0]] && at + names == child + names[1..];
      assert IsDir(t, at + names[..1]);
      forall j | 0 <= j <= |names[1..]|
        ensures IsDir(t, child + names[1..][..j])
      {
        assert names[..j + 1] == [names[0]] + names[1..][..j];
        assert child + names[1..][..j] == at + names[..j + 1];
      }
      DirWalk(t, child, names[1..], follow, links);
    }
  }
}
