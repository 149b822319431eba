/** What normalising an archive name preserves: the place it leads to from any directory. */
module SdistPaths {
  import opened Options
  import opened SdistDigest

  /** A directory, as the names on the way to it from the root. */
  type Directory = seq<string>

  /** One piece, without symbolic links; the root is its own parent. */
  function Enter(from: Directory, piece: string): Directory {
    if piece == "" || piece == "." then from
    else if piece != ".." then from + [piece]
    else if from == [] then from
    else from[..|from| - 1]
  }

  /** Where the pieces of a path lead from a directory. */
  function Resolve(from: Directory, parts: seq<string>): Directory
    decreases |parts|
  {
    if parts == [] then from else Resolve(Enter(from, parts[0]), parts[1..])
  }

  lemma {:induction false} ResolveLast(from: Directory, parts: seq<string>, piece: string)
    ensures Resolve(from, parts + [piece]) == Enter(Resolve(from, parts), piece)
    decreases |parts|
  {
    hide Enter;
    if parts == [] {
      assert parts + [piece] == [piece] && [piece][1..] == [];
    } else {
      assert (parts + [piece])[0] == parts[0] && (parts + [piece])[1..] == parts[1..] + [piece];
      ResolveLast(Enter(from, parts[0]), parts[1..], piece);
    }
  }

  lemma {:induction false} FoldResolves(from: Directory, parts: seq<string>, kept: seq<string>, rooted: bool)
    requires Climbing(kept) && (forall p | p in kept :: Meaningful(p)) && (forall p | p in parts :: '/' !in p)
    requires rooted ==> from == [] && forall p | p in kept :: p != ".."
    ensures Resolve(from, FoldParts(parts, kept, rooted)) == Resolve(Resolve(from, kept), parts)
    decreases |parts|
  {
    hide Resolve;
    if parts == [] {
      NothingFolded(from, kept, rooted);
    } else {
      var c, rest := parts[0], parts[1..];
      ResolveFirst(Resolve(from, kept), parts);
      assert c in parts && forall p | p in rest :: p in parts;
      if c == "" || c == "." {
        FoldResolves(from, rest, kept, rooted);
      } else if c != ".." || (!rooted && kept == []) || (kept != [] && kept[|kept| - 1] == "..") {
        ResolveLast(from, kept, c);
        ClimbsOn(kept, c);
        if rooted && kept != [] { assert kept[|kept| - 1] in kept; }
        assert forall p | p in kept + [c] :: p in kept || p == c;
        FoldResolves(from, rest, kept + [c], rooted);
      } else if kept != [] {
        var front, last := kept[..|kept| - 1], kept[|kept| - 1];
        assert last in kept && forall p | p in front :: p in kept;
        assert Climbing(front) by { assert forall i | 0 <= i < |front| :: front[i] == kept[i]; }
        assert kept == front + [last];
        ResolveLast(from, front, last);
        FoldResolves(from, rest, front, rooted);
      } else {
        NothingFolded(from, kept, rooted);
        FoldResolves(from, rest, kept, rooted);
      }
    }
  }

  lemma NothingFolded(from: Directory, kept: seq<string>, rooted: bool)
    ensures Resolve(from, []) == from && Resolve(Resolve(from, kept), []) == Resolve(from, kept)
  {
  }

  lemma ResolveFirst(from: Directory, parts: seq<string>)
    requires parts != []
    ensures Resolve(from, parts) == Resolve(Enter(from, parts[0]), parts[1..])
  {
  }

  lemma ClimbsOn(kept: seq<string>, c: string)
    requires Climbing(kept) && (c == ".." && kept != [] ==> kept[|kept| - 1] == "..")
    ensures Climbing(kept + [c])
  {
  }

  /** A normalised path leads where the path leads, from every directory, or from the root if absolute. */
  lemma NormalisingKeepsTarget(s: string, from: Directory)
    requires Root(s) == "" || from == []
    ensures Resolve(from, Parts(s)) == Resolve(from, Split(s))
  {
    FoldResolves(from, Split(s), [], Root(s) != "");
  }

  /** From everywhere the pieces lead strictly inside the directory they start in. */
  ghost predicate LeadsInside(parts: seq<string>) {
    forall from: Directory :: |Resolve(from, parts)| > |from| && Resolve(from, parts)[..|from|] == from
  }

  lemma {:induction false} NamesResolve(from: Directory, names: seq<string>)
    requires forall p | p in names :: Meaningful(p) && p != ".."
    ensures Resolve(from, names) == from + names
    decreases |names|
  {
    if names != [] {
      assert names[0] in names;
      NamesResolve(from + [names[0]], names[1..]);
      assert from + [names[0]] + names[1..] == from + names;
    }
  }

  /** The pieces that climb come first; from the root they lead nowhere. */
  lemma {:induction false} ClimbersFromRoot(parts: seq<string>)
    requires Climbing(parts) && forall p | p in parts :: Meaningful(p)
    ensures forall p | p in Resolve([], parts) :: '/' !in p
    ensures |Resolve([], parts)| <= |parts|
    decreases |parts|
  {
    if parts != [] {
      if parts[0] == ".." {
        ClimbersFromRoot(parts[1..]);
      } else {
        forall p | p in parts ensures Meaningful(p) && p != ".." {
          var j :| 0 <= j < |parts| && parts[j] == p;
        }
        NamesResolve([], parts);
        assert [] + parts == parts;
      }
    }
  }

  /** A name is accepted exactly when it is relative and leads strictly inside the directory it is
      unpacked in, wherever that is. */
  lemma SafeIffLeadsInside(name: string)
    ensures Safe(name) <==> !("/" <= name) && LeadsInside(Split(name))
  {
    hide Split, FoldParts, LeadsInside, Resolve, Normpath;
    SafeIff(name);
    var parts := Parts(name);
    if !("/" <= name) {
      assert Root(name) == "";
      if parts != [] && parts[0] != ".." {
        AllInside(name);
      } else {
        NotInside(name);
      }
    }
  }

  lemma AllInside(name: string)
    requires Root(name) == "" && Parts(name) != [] && Parts(name)[0] != ".."
    ensures LeadsInside(Split(name))
  {
    hide Split, FoldParts;
    var parts := Parts(name);
    forall p | p in parts ensures Meaningful(p) && p != ".." {
      var j :| 0 <= j < |parts| && parts[j] == p;
    }
    forall from: Directory
      ensures |Resolve(from, Split(name))| > |from| && Resolve(from, Split(name))[..|from|] == from
    {
      NormalisingKeepsTarget(name, from);
      NamesResolve(from, parts);
    }
  }

  lemma ClimbsOut(parts: seq<string>)
    requires parts != [] && parts[0] == ".."
    ensures Resolve(["/"], parts) == Resolve([], parts[1..])
  {
    assert ["/"][..0] == [];
  }

  lemma NotInside(name: string)
    requires Root(name) == "" && (Parts(name) == [] || Parts(name)[0] == "..")
    ensures !LeadsInside(Split(name))
  {
    hide Split, FoldParts, Resolve;
    var parts := Parts(name);
    var from: Directory := ["/"];
    NormalisingKeepsTarget(name, from);
    NothingFolded(from, [], false);
    if parts != [] {
      ClimbsOut(parts);
      assert Climbing(parts[1..]) by { assert forall i | 0 <= i < |parts| - 1 :: parts[1..][i] == parts[i + 1]; }
      ClimbersFromRoot(parts[1..]);
      var r := Resolve(from, Split(name));
      if |r| > 0 {
        assert r[0] in r && '/' in "/";
        assert r[..1][0] != from[0];
      }
    }
  }
}
