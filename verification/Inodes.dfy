/**
  sys/vfs.c: the tree of inodes, filled from the archive and searched by path.  An inode
  is known by the number of its allocation; the root is 0.
 */
module Inodes {
  import opened Archive
  import opened Tokeniser
  import opened Wrappers

  const MAX_FAMILY: nat := 10

  // family[0] is the parent, the rest are children.
  datatype Inode = Inode(name: string, start: nat, end: nat, kind: Kind, family: seq<nat>)

  type Tree = seq<Inode>

  const SLASH: char := '/'

  // ------------------------------------------------------------------ the shape

  // Ten places in a family at most; an earlier parent that lists the inode, unless it is
  // the root; children that are later, different, and know their parent.
  ghost predicate NodeOk(t: Tree, n: nat)
    requires n < |t|
  {
    var f := t[n].family;
    && 1 <= |f| <= MAX_FAMILY
    && (if n == 0 then f[0] == 0 else f[0] < n && n in t[f[0]].family[if t[f[0]].family == [] then 0 else 1..])
    && (forall k {:trigger f[k]} :: 1 <= k < |f| ==> n < f[k] < |t| && t[f[k]].family != [] && t[f[k]].family[0] == n)
    && (forall k, m {:trigger f[k], f[m]} :: 1 <= k < m < |f| ==> f[k] != f[m])
  }

  // A rooted tree: every inode but the root is the child of one inode, once.
  ghost predicate TreeOk(t: Tree) {
    t != [] && forall n {:trigger NodeOk(t, n)} :: 0 <= n < |t| ==> NodeOk(t, n)
  }

  // --------------------------------------------------------------- find and append

  // A child whose name begins with the token.
  predicate Matches(t: Tree, n: nat, k: nat, token: string) {
    n < |t| && 1 <= k < |t[n].family| && t[n].family[k] < |t| && token <= t[t[n].family[k]].name
  }

  // The place of the first child whose name begins with the token; 0 if there is none.
  function FindFamily(t: Tree, n: nat, token: string, from: nat := 1): (k: nat)
    requires n < |t| && 1 <= from <= |t[n].family|
    ensures k == 0 || (from <= k < |t[n].family| && Matches(t, n, k, token))
    ensures forall j :: from <= j < |t[n].family| && (k == 0 || j < k) ==> !Matches(t, n, j, token)
    decreases |t[n].family| - from
  {
    if from == |t[n].family| then 0
    else if Matches(t, n, from, token) then from
    else FindFamily(t, n, token, from + 1)
  }

  function NewInode(parent: nat, token: string, start: nat, end: nat, kind: Kind): Inode {
    Inode(token, start, end, kind, [parent])
  }

  // A new child at the end of a family that has room.
  function Appended(t: Tree, n: nat, token: string, start: nat, end: nat, kind: Kind): Tree
    requires n < |t|
  {
    t[n := t[n].(family := t[n].family + [|t|])] + [NewInode(n, token, start, end, kind)]
  }

  lemma AppendedNew(t: Tree, n: nat, token: string, start: nat, end: nat, kind: Kind)
    requires TreeOk(t) && n < |t|
    ensures NodeOk(Appended(t, n, token, start, end, kind), |t|)
  {
    var u := Appended(t, n, token, start, end, kind);
    assert NodeOk(t, n);
    assert u[n].family[1..] == t[n].family[1..] + [|t|];
    assert |t| in u[n].family[1..];
  }

  lemma AppendedParent(t: Tree, n: nat, token: string, start: nat, end: nat, kind: Kind)
    requires TreeOk(t) && n < |t| && |t[n].family| < MAX_FAMILY
    ensures NodeOk(Appended(t, n, token, start, end, kind), n)
  {
    assert NodeOk(t, n);
    assert n > 0 ==> NodeOk(t, t[n].family[0]);
  }

  lemma AppendedOther(t: Tree, n: nat, token: string, start: nat, end: nat, kind: Kind, m: nat)
    requires TreeOk(t) && n < |t| && m < |t| && m != n
    ensures NodeOk(Appended(t, n, token, start, end, kind), m)
  {
    var u := Appended(t, n, token, start, end, kind);
    assert NodeOk(t, n) && NodeOk(t, m);
    assert u[n].family[1..] == t[n].family[1..] + [|t|];
  }

  lemma AppendedOk(t: Tree, n: nat, token: string, start: nat, end: nat, kind: Kind)
    requires TreeOk(t) && n < |t| && |t[n].family| < MAX_FAMILY
    ensures TreeOk(Appended(t, n, token, start, end, kind))
  {
    hide NodeOk;
    forall m | 0 <= m <= |t| ensures NodeOk(Appended(t, n, token, start, end, kind), m) {
      if m == |t| {
        AppendedNew(t, n, token, start, end, kind);
      } else if m == n {
        AppendedParent(t, n, token, start, end, kind);
      } else {
        AppendedOther(t, n, token, start, end, kind, m);
      }
    }
  }

  lemma NodeIs(t: Tree, n: nat)
    requires TreeOk(t) && n < |t|
    ensures NodeOk(t, n)
  {
  }

  // ------------------------------------------------------------ insert and resolve

  // Where an insertion leaves the tree, and the inode it ends on.
  function Insert(t: Tree, n: nat, tokens: seq<string>, start: nat, end: nat, kind: Kind): (r: (Tree, nat))
    requires n < |t| && forall m :: 0 <= m < |t| ==> t[m].family != []
    ensures r.1 < |r.0| && forall m :: 0 <= m < |r.0| ==> r.0[m].family != []
    decreases |tokens|
  {
    if tokens == [] then (t, n)
    else
      var k := FindFamily(t, n, tokens[0]);
      if k > 0 then Insert(t, t[n].family[k], tokens[1..], start, end, kind)
      else if |t[n].family| >= MAX_FAMILY then Insert(t, n, tokens[1..], start, end, kind)
      else Insert(Appended(t, n, tokens[0], start, end, kind), |t|, tokens[1..], start, end, kind)
  }

  function Resolve(t: Tree, n: nat, tokens: seq<string>): Option<nat>
    requires n < |t| && forall m :: 0 <= m < |t| ==> t[m].family != []
    decreases |tokens|
  {
    if tokens == [] then Some(n)
    else
      var k := FindFamily(t, n, tokens[0]);
      if k == 0 then None else Resolve(t, t[n].family[k], tokens[1..])
  }

  // No full directory on the way.
  predicate HasRoom(t: Tree, n: nat, tokens: seq<string>, start: nat, end: nat, kind: Kind)
    requires n < |t| && forall m :: 0 <= m < |t| ==> t[m].family != []
    decreases |tokens|
  {
    if tokens == [] then true
    else
      var k := FindFamily(t, n, tokens[0]);
      if k > 0 then HasRoom(t, t[n].family[k], tokens[1..], start, end, kind)
      else |t[n].family| < MAX_FAMILY && HasRoom(Appended(t, n, tokens[0], start, end, kind), |t|, tokens[1..], start, end, kind)
  }

  // Families only get longer, at their ends; names and data stay.
  ghost predicate Grows(t: Tree, u: Tree) {
    && |t| <= |u|
    && forall n {:trigger u[n]} :: 0 <= n < |t| ==> t[n].family <= u[n].family && u[n] == t[n].(family := u[n].family)
  }

  lemma Rooted(t: Tree)
    requires TreeOk(t)
    ensures t != [] && forall m :: 0 <= m < |t| ==> t[m].family != []
  {
    forall m | 0 <= m < |t| ensures t[m].family != [] {
      NodeIs(t, m);
    }
  }

  lemma GrowsTransitive(t: Tree, u: Tree, v: Tree)
    requires Grows(t, u) && Grows(u, v)
    ensures Grows(t, v)
  {
  }

  lemma AppendGrows(t: Tree, n: nat, token: string, start: nat, end: nat, kind: Kind)
    requires n < |t|
    ensures Grows(t, Appended(t, n, token, start, end, kind))
  {
  }

  // An insertion keeps the tree a tree, and only adds to it.
  lemma {:induction false} InsertKeeps(t: Tree, n: nat, tokens: seq<string>, start: nat, end: nat, kind: Kind)
    requires TreeOk(t) && n < |t|
    ensures forall m :: 0 <= m < |t| ==> t[m].family != []
    ensures var u := Insert(t, n, tokens, start, end, kind).0; TreeOk(u) && Grows(t, u)
    decreases |tokens|
  {
    Rooted(t);
    hide TreeOk, Appended;
    if tokens != [] {
      var k := FindFamily(t, n, tokens[0]);
      if k > 0 {
        InsertKeeps(t, t[n].family[k], tokens[1..], start, end, kind);
      } else if |t[n].family| >= MAX_FAMILY {
        InsertKeeps(t, n, tokens[1..], start, end, kind);
      } else {
        var u := Appended(t, n, tokens[0], start, end, kind);
        AppendedOk(t, n, tokens[0], start, end, kind);
        AppendGrows(t, n, tokens[0], start, end, kind);
        AppendedSize(t, n, tokens[0], start, end, kind);
        InsertKeeps(u, |t|, tokens[1..], start, end, kind);
        GrowsTransitive(t, u, Insert(u, |t|, tokens[1..], start, end, kind).0);
      }
    }
  }

  lemma AppendedSize(t: Tree, n: nat, token: string, start: nat, end: nat, kind: Kind)
    requires n < |t|
    ensures |Appended(t, n, token, start, end, kind)| == |t| + 1
  {
  }

  // The first match in a family stays the first match; and in a full family nothing new
  // can match.
  lemma FindStable(t: Tree, u: Tree, n: nat, token: string)
    requires TreeOk(t) && TreeOk(u) && Grows(t, u) && n < |t|
    ensures t[n].family != [] && u[n].family != []
    ensures FindFamily(t, n, token) > 0 ==> FindFamily(u, n, token) == FindFamily(t, n, token)
    ensures FindFamily(t, n, token) == 0 && |t[n].family| >= MAX_FAMILY ==> FindFamily(u, n, token) == 0
  {
    NodeIs(t, n);
    NodeIs(u, n);
    var k, l := FindFamily(t, n, token), FindFamily(u, n, token);
    assert forall j :: 1 <= j < |t[n].family| ==> (Matches(u, n, j, token) <==> Matches(t, n, j, token));
  }

  // A path that resolves goes on resolving to the same inode.
  lemma {:induction false} ResolveStable(t: Tree, u: Tree, n: nat, tokens: seq<string>)
    requires TreeOk(t) && TreeOk(u) && Grows(t, u) && n < |t|
    ensures (forall m :: 0 <= m < |t| ==> t[m].family != []) && forall m :: 0 <= m < |u| ==> u[m].family != []
    ensures Resolve(t, n, tokens).Some? ==> Resolve(u, n, tokens) == Resolve(t, n, tokens)
    decreases |tokens|
  {
    Rooted(t);
    Rooted(u);
    hide TreeOk;
    if tokens != [] {
      FindStable(t, u, n, tokens[0]);
      var k := FindFamily(t, n, tokens[0]);
      if k > 0 {
        assert t[n].family <= u[n].family && u[n].family[k] == t[n].family[k];
        ResolveStable(t, u, t[n].family[k], tokens[1..]);
      }
    }
  }

  // A path that was inserted leads to where its insertion ended exactly when there was no
  // full directory on the way; otherwise it leads nowhere.
  lemma {:induction false} InsertResolvesIff(t: Tree, n: nat, tokens: seq<string>, start: nat, end: nat, kind: Kind)
    requires TreeOk(t) && n < |t|
    ensures forall m :: 0 <= m < |t| ==> t[m].family != []
    ensures var (u, e) := Insert(t, n, tokens, start, end, kind);
            n < |u| && Resolve(u, n, tokens) == if HasRoom(t, n, tokens, start, end, kind) then Some(e) else None
    decreases |tokens|
  {
    Rooted(t);
    InsertKeeps(t, n, tokens, start, end, kind);
    var u := Insert(t, n, tokens, start, end, kind).0;
    hide TreeOk, Appended;
    if tokens != [] {
      var k := FindFamily(t, n, tokens[0]);
      FindStable(t, u, n, tokens[0]);
      if k > 0 {
        assert t[n].family <= u[n].family && u[n].family[k] == t[n].family[k];
        InsertResolvesIff(t, t[n].family[k], tokens[1..], start, end, kind);
      } else if |t[n].family| < MAX_FAMILY {
        AppendResolves(t, n, tokens, start, end, kind);
      }
    }
  }

  lemma AppendResolves(t: Tree, n: nat, tokens: seq<string>, start: nat, end: nat, kind: Kind)
    requires TreeOk(t) && n < |t| && tokens != []
    requires t[n].family != [] && FindFamily(t, n, tokens[0]) == 0 && |t[n].family| < MAX_FAMILY
    ensures forall m :: 0 <= m < |t| ==> t[m].family != []
    ensures var (u, e) := Insert(t, n, tokens, start, end, kind);
            n < |u| && Resolve(u, n, tokens) == if HasRoom(t, n, tokens, start, end, kind) then Some(e) else None
    decreases |tokens|, 0
  {
    Rooted(t);
    var a := Appended(t, n, tokens[0], start, end, kind);
    AppendedOk(t, n, tokens[0], start, end, kind);
    NewestFound(t, n, tokens[0], start, end, kind);
    AppendedSize(t, n, tokens[0], start, end, kind);
    InsertKeeps(a, |t|, tokens[1..], start, end, kind);
    var u := Insert(a, |t|, tokens[1..], start, end, kind).0;
    assert u == Insert(t, n, tokens, start, end, kind).0;
    hide TreeOk, Appended;
    FindStable(a, u, n, tokens[0]);
    assert a[n].family <= u[n].family && u[n].family[|t[n].family|] == |t|;
    InsertResolvesIff(a, |t|, tokens[1..], start, end, kind);
  }

  // Where nothing matched, the child that is added is what matches.
  lemma NewestFound(t: Tree, n: nat, token: string, start: nat, end: nat, kind: Kind)
    requires TreeOk(t) && n < |t| && t[n].family != [] && FindFamily(t, n, token) == 0
    ensures var u := Appended(t, n, token, start, end, kind);
            FindFamily(u, n, token) == |t[n].family| && u[n].family[|t[n].family|] == |t|
  {
    var u := Appended(t, n, token, start, end, kind);
    NodeIs(t, n);
    var k := FindFamily(u, n, token);
    assert Matches(u, n, |t[n].family|, token);
    assert forall j :: 1 <= j < |t[n].family| ==> (Matches(u, n, j, token) <==> Matches(t, n, j, token));
  }

  // The search is by prefix: the child of a name is found exactly when no child before it
  // has a name that begins with that name.
  lemma ExactFoundIff(t: Tree, n: nat, k: nat, token: string)
    requires TreeOk(t) && n < |t| && 1 <= k < |t[n].family| && t[n].family[k] < |t| && t[t[n].family[k]].name == token
    ensures FindFamily(t, n, token) == k <==> forall j :: 1 <= j < k ==> !Matches(t, n, j, token)
  {
    NodeIs(t, n);
    assert Matches(t, n, k, token);
  }

  // A name that begins the name of a child can not be added beside it.
  lemma PrefixNotAdded(t: Tree, n: nat, k: nat, token: string, start: nat, end: nat, kind: Kind)
    requires TreeOk(t) && n < |t| && Matches(t, n, k, token)
    ensures forall m :: 0 <= m < |t| ==> t[m].family != []
    ensures Insert(t, n, [token], start, end, kind).0 == t
  {
    Rooted(t);
    assert FindFamily(t, n, token) > 0;
  }

  // ------------------------------------------------------------------ the archive

  function RootInode(): Inode { Inode("/", 0, 1, Dir, [0]) }

  ghost function InsertAll(t: Tree, found: seq<Found>): (u: Tree)
    requires TreeOk(t)
    ensures TreeOk(u)
    decreases |found|
  {
    if found == [] then t
    else
      InsertKeeps(t, 0, Tokens(found[0].name, SLASH), found[0].start, found[0].end, found[0].kind);
      InsertAll(Insert(t, 0, Tokens(found[0].name, SLASH), found[0].start, found[0].end, found[0].kind).0, found[1..])
  }

  lemma {:induction false} InsertAllGrows(t: Tree, found: seq<Found>)
    requires TreeOk(t)
    ensures Grows(t, InsertAll(t, found))
    decreases |found|
  {
    Rooted(t);
    hide TreeOk;
    if found != [] {
      var f := found[0];
      InsertKeeps(t, 0, Tokens(f.name, SLASH), f.start, f.end, f.kind);
      var u := Insert(t, 0, Tokens(f.name, SLASH), f.start, f.end, f.kind).0;
      InsertAllGrows(u, found[1..]);
      GrowsTransitive(t, u, InsertAll(u, found[1..]));
    }
  }

  // Whatever comes after it in the archive, a path inserted with room resolves to where its
  // insertion ended.
  lemma PathSurvives(t: Tree, f: Found, later: seq<Found>)
    requires TreeOk(t)
    ensures t != [] && forall m :: 0 <= m < |t| ==> t[m].family != []
    ensures var ts := Tokens(f.name, SLASH); var (u, e) := Insert(t, 0, ts, f.start, f.end, f.kind);
            && TreeOk(u)
            && var v := InsertAll(u, later);
               && v != [] && (forall m :: 0 <= m < |v| ==> v[m].family != [])
               && (HasRoom(t, 0, ts, f.start, f.end, f.kind) ==> Resolve(v, 0, ts) == Some(e))
  {
    Rooted(t);
    hide TreeOk, Tokens;
    var ts := Tokens(f.name, SLASH);
    InsertKeeps(t, 0, ts, f.start, f.end, f.kind);
    InsertResolvesIff(t, 0, ts, f.start, f.end, f.kind);
    var u := Insert(t, 0, ts, f.start, f.end, f.kind).0;
    Rooted(u);
    InsertAllGrows(u, later);
    ResolveStable(u, InsertAll(u, later), 0, ts);
    Rooted(InsertAll(u, later));
  }

  // ------------------------------------------------------- the data a path leads to

  // An inode has the data of a member.
  predicate Holds(i: Inode, f: Found) {
    i.start == f.start && i.end == f.end && i.kind == f.kind
  }

  // In a directory without children nothing is found: all the rest of a path is added.
  lemma {:induction false} FreshPath(t: Tree, n: nat, tokens: seq<string>, f: Found)
    requires TreeOk(t) && n < |t| && |t[n].family| == 1 && Holds(t[n], f)
    ensures forall m :: 0 <= m < |t| ==> t[m].family != []
    ensures var (u, e) := Insert(t, n, tokens, f.start, f.end, f.kind);
            && HasRoom(t, n, tokens, f.start, f.end, f.kind) && Holds(u[e], f)
    decreases |tokens|
  {
    Rooted(t);
    if tokens != [] {
      var u := Appended(t, n, tokens[0], f.start, f.end, f.kind);
      AppendedOk(t, n, tokens[0], f.start, f.end, f.kind);
      hide TreeOk;
      assert FindFamily(t, n, tokens[0]) == 0;
      FreshPath(u, |t|, tokens[1..], f);
    }
  }

  // A path that led nowhere, and now leads somewhere, leads to the data of the member that was
  // inserted.
  lemma {:induction false} NewPath(t: Tree, n: nat, tokens: seq<string>, f: Found)
    requires TreeOk(t) && n < |t|
    ensures forall m :: 0 <= m < |t| ==> t[m].family != []
    ensures Resolve(t, n, tokens) == None && HasRoom(t, n, tokens, f.start, f.end, f.kind) ==>
              var (u, e) := Insert(t, n, tokens, f.start, f.end, f.kind); Holds(u[e], f)
    decreases |tokens|
  {
    Rooted(t);
    if tokens != [] {
      var k := FindFamily(t, n, tokens[0]);
      if k > 0 {
        NewPath(t, t[n].family[k], tokens[1..], f);
      } else if |t[n].family| < MAX_FAMILY {
        AppendedOk(t, n, tokens[0], f.start, f.end, f.kind);
        FreshPath(Appended(t, n, tokens[0], f.start, f.end, f.kind), |t|, tokens[1..], f);
      }
    }
  }

  // A path that led somewhere is not touched.
  lemma {:induction false} OldPath(t: Tree, n: nat, tokens: seq<string>, f: Found)
    requires TreeOk(t) && n < |t|
    ensures forall m :: 0 <= m < |t| ==> t[m].family != []
    ensures Resolve(t, n, tokens).Some? ==>
              && HasRoom(t, n, tokens, f.start, f.end, f.kind)
              && Insert(t, n, tokens, f.start, f.end, f.kind) == (t, Resolve(t, n, tokens).value)
    decreases |tokens|
  {
    Rooted(t);
    if tokens != [] {
      var k := FindFamily(t, n, tokens[0]);
      if k > 0 {
        OldPath(t, t[n].family[k], tokens[1..], f);
      }
    }
  }

  // The path comes to a full directory in which nothing matches.
  predicate Blocked(t: Tree, n: nat, tokens: seq<string>)
    requires n < |t| && forall m :: 0 <= m < |t| ==> t[m].family != []
    decreases |tokens|
  {
    tokens != [] &&
    var k := FindFamily(t, n, tokens[0]);
    if k > 0 then Blocked(t, t[n].family[k], tokens[1..]) else |t[n].family| >= MAX_FAMILY
  }

  // No room for a path means such a directory, then and ever after.
  lemma {:induction false} NoRoomBlocked(t: Tree, n: nat, tokens: seq<string>, f: Found)
    requires TreeOk(t) && n < |t|
    ensures forall m :: 0 <= m < |t| ==> t[m].family != []
    ensures HasRoom(t, n, tokens, f.start, f.end, f.kind) <==> !Blocked(t, n, tokens)
    decreases |tokens|
  {
    Rooted(t);
    if tokens != [] {
      var k := FindFamily(t, n, tokens[0]);
      if k > 0 {
        NoRoomBlocked(t, t[n].family[k], tokens[1..], f);
      } else if |t[n].family| < MAX_FAMILY {
        AppendedOk(t, n, tokens[0], f.start, f.end, f.kind);
        var u := Appended(t, n, tokens[0], f.start, f.end, f.kind);
        FreshPath(u, |t|, tokens[1..], Found("", f.start, f.end, f.kind));
      }
    }
  }

  lemma {:induction false} BlockedStays(t: Tree, u: Tree, n: nat, tokens: seq<string>)
    requires TreeOk(t) && TreeOk(u) && Grows(t, u) && n < |t|
    ensures (forall m :: 0 <= m < |t| ==> t[m].family != []) && forall m :: 0 <= m < |u| ==> u[m].family != []
    ensures Blocked(t, n, tokens) ==> Resolve(u, n, tokens) == None
    decreases |tokens|
  {
    Rooted(t);
    Rooted(u);
    hide TreeOk;
    if tokens != [] {
      FindStable(t, u, n, tokens[0]);
      var k := FindFamily(t, n, tokens[0]);
      if k > 0 {
        assert t[n].family <= u[n].family && u[n].family[k] == t[n].family[k];
        BlockedStays(t, u, t[n].family[k], tokens[1..]);
      }
    }
  }

  lemma {:induction false} ResolveIn(t: Tree, n: nat, tokens: seq<string>)
    requires TreeOk(t) && n < |t|
    ensures forall m :: 0 <= m < |t| ==> t[m].family != []
    ensures Resolve(t, n, tokens).Some? ==> Resolve(t, n, tokens).value < |t|
    decreases |tokens|
  {
    Rooted(t);
    if tokens != [] {
      var k := FindFamily(t, n, tokens[0]);
      if k > 0 {
        ResolveIn(t, t[n].family[k], tokens[1..]);
      }
    }
  }

  // The path leads to the data of the member.
  ghost predicate LeadsTo(t: Tree, f: Found)
    requires TreeOk(t)
  {
    ResolveIn(t, 0, Tokens(f.name, SLASH));
    var r := Resolve(t, 0, Tokens(f.name, SLASH));
    r.Some? && Holds(t[r.value], f)
  }

  // Before the member is inserted: there is no full directory on its way, and its path leads
  // nowhere yet, or to these very data.
  ghost predicate Welcome(t: Tree, f: Found)
    requires TreeOk(t)
  {
    hide TreeOk, Tokens;
    Rooted(t);
    ResolveIn(t, 0, Tokens(f.name, SLASH));
    var ts := Tokens(f.name, SLASH);
    && HasRoom(t, 0, ts, f.start, f.end, f.kind)
    && (Resolve(t, 0, ts).None? || Holds(t[Resolve(t, 0, ts).value], f))
  }

  // After the whole archive, the path of a member leads to its data exactly when it was
  // welcome in its turn.
  lemma LeadsToIff(t: Tree, f: Found, later: seq<Found>)
    requires TreeOk(t)
    ensures LeadsTo(InsertAll(t, [f] + later), f) <==> Welcome(t, f)
  {
    Rooted(t);
    hide TreeOk, Tokens;
    var ts := Tokens(f.name, SLASH);
    InsertKeeps(t, 0, ts, f.start, f.end, f.kind);
    var (u, e) := Insert(t, 0, ts, f.start, f.end, f.kind);
    InsertResolvesIff(t, 0, ts, f.start, f.end, f.kind);
    NewPath(t, 0, ts, f);
    OldPath(t, 0, ts, f);
    NoRoomBlocked(t, 0, ts, f);
    InsertAllGrows(u, later);
    var v := InsertAll(u, later);
    assert ([f] + later)[1..] == later && InsertAll(t, [f] + later) == v;
    Rooted(v);
    Rooted(u);
    ResolveStable(u, v, 0, ts);
    BlockedStays(t, v, 0, ts) by { GrowsTransitive(t, u, v); }
  }

  lemma {:induction false} InsertAllSplit(t: Tree, a: seq<Found>, b: seq<Found>)
    requires TreeOk(t)
    ensures InsertAll(t, a + b) == InsertAll(InsertAll(t, a), b)
    decreases |a|
  {
    Rooted(t);
    hide TreeOk, Tokens;
    if a == [] {
      assert a + b == b;
    } else {
      var ts := Tokens(a[0].name, SLASH);
      InsertKeeps(t, 0, ts, a[0].start, a[0].end, a[0].kind);
      assert (a + b)[1..] == a[1..] + b && (a + b)[0] == a[0];
      InsertAllSplit(Insert(t, 0, ts, a[0].start, a[0].end, a[0].kind).0, a[1..], b);
    }
  }

  // The same of every member of an archive.
  lemma MemberFoundIff(t: Tree, found: seq<Found>, i: nat)
    requires TreeOk(t) && i < |found|
    ensures LeadsTo(InsertAll(t, found), found[i]) <==> Welcome(InsertAll(t, found[..i]), found[i])
  {
    hide TreeOk, LeadsTo, Welcome;
    assert found == found[..i] + ([found[i]] + found[i + 1..]);
    InsertAllSplit(t, found[..i], [found[i]] + found[i + 1..]);
    LeadsToIff(InsertAll(t, found[..i]), found[i], found[i + 1..]);
  }

  // The inode that the path of a name leads to has these data.
  ghost predicate PathHolds(t: Tree, name: string, start: nat, end: nat, kind: Kind)
    requires TreeOk(t)
  {
    ResolveIn(t, 0, Tokens(name, '/'));
    var r := Resolve(t, 0, Tokens(name, '/'));
    r.Some? && t[r.value].start == start && t[r.value].end == end && t[r.value].kind == kind
  }

  // Of a member of an image: it has an entry, and after the whole archive its path leads to its
  // data, the octal number in its size field of them behind its header, and to its kind,
  // exactly when it was welcome in its turn.
  ghost predicate Served(t: Tree, ms: seq<Member>, i: nat)
    requires TreeOk(t) && TreeOk([RootInode()]) && ImageOk(ms) && i < |ms|
  {
    var b, found := ms[i].header, Listing(ms, 0);
    && Terminated(b) && Terminated(b[124..136]) && Value(Text(b[124..136]), 8) >= 0
    && var start := 512 * (|Blocks(ms[..i])| + 1);
       exists k {:trigger found[k]} :: 0 <= k < |found| && IsEntry(found[k], b, start)
         && (PathHolds(t, Text(b), start, start + Value(Text(b[124..136]), 8), if b[156] == '0' then File else Dir)
             <==> Welcome(InsertAll([RootInode()], found[..k]), found[k]))
  }

  // Directories and files of every size, also of none.
  lemma MembersServed(ms: seq<Member>, i: nat)
    requires ImageOk(ms) && i < |ms| && TreeOk([RootInode()]) && Wanted(ms[i].header)
    ensures Served(InsertAll([RootInode()], Listing(ms, 0)), ms, i)
  {
    hide TreeOk, Welcome, Value, Text, PathHolds, LeadsTo, RootInode, Wanted, Terminated, Listing, MemberOk, Blocks, Digits, IsEntry;
    hide InsertAll, Lists, SizeField;
    var found, b := Listing(ms, 0), ms[i].header;
    SizePositive(ms[i]) by { assert MemberOk(ms[i]); }
    var which := ListingLists(ms, 0);
    var k := PlaceOf(ms, found, which, i);
    EntryServed([RootInode()], found, k);
  }

  // The entry of a wanted member.
  lemma PlaceOf(ms: seq<Member>, found: seq<Found>, which: seq<nat>, i: nat) returns (k: nat)
    requires Lists(ms, 0, found, which) && i < |ms| && Wanted(ms[i].header)
    ensures k < |found| && IsEntry(found[k], ms[i].header, 512 * (|Blocks(ms[..i])| + 1))
    ensures var (f, b) := (found[k], ms[i].header);
            && Terminated(b) && Terminated(b[124..136])
            && f.name == Text(b) && f.start == 512 * (|Blocks(ms[..i])| + 1) && f.end == f.start + Value(Text(b[124..136]), 8)
            && f.kind == if b[156] == '0' then File else Dir
  {
    hide Wanted, Blocks, Text, Value, Terminated;
    k :| 0 <= k < |which| && which[k] == i;
    assert IsEntry(found[k], ms[which[k]].header, DataStart(ms, 0, which[k]));
  }

  lemma EntryServed(t: Tree, found: seq<Found>, k: nat)
    requires TreeOk(t) && k < |found|
    ensures var f := found[k];
            PathHolds(InsertAll(t, found), f.name, f.start, f.end, f.kind) <==> Welcome(InsertAll(t, found[..k]), f)
  {
    hide *;
    MemberFoundIff(t, found, k);
    PathHoldsIs(InsertAll(t, found), found[k]);
  }

  lemma SizePositive(m: Member)
    requires MemberOk(m)
    ensures Terminated(m.header[124..136]) && Value(Text(m.header[124..136]), 8) >= 0
  {
    ValueBounds(Text(m.header[124..136]));
  }

  lemma PathHoldsIs(t: Tree, f: Found)
    requires TreeOk(t)
    ensures PathHolds(t, f.name, f.start, f.end, f.kind) <==> LeadsTo(t, f)
  {
    hide TreeOk, Tokens;
    Rooted(t);
    ResolveIn(t, 0, Tokens(f.name, SLASH));
  }

  // A path is cut at '/', wherever it stands and how often.
  lemma SlashSplits(dir: string, path: string)
    requires '/' !in dir && dir != []
    ensures Tokens("/" + path, SLASH) == Tokens(path, SLASH)
    ensures Tokens(dir + "/" + path, SLASH) == [dir] + Tokens(path, SLASH)
    ensures Tokens(dir, SLASH) == [dir]
  {
    SkipDelim("/" + path, '/');
    assert ("/" + path)[1..] == path;
    assert dir + "/" + path == dir + ("/" + path);
    assert dir + [] == dir;
    NoTokens('/');
    TokenFirst(dir, "/" + path, '/');
    TokenFirst(dir, [], '/');
  }

  // A directory takes nine children: the next one is added behind them up to the ninth, and
  // the tenth gets no inode.
  lemma TenthChild(t: Tree, n: nat, token: string, start: nat, end: nat, kind: Kind)
    requires TreeOk(t) && n < |t|
    requires forall k :: 1 <= k < |t[n].family| ==> !Matches(t, n, k, token)
    ensures 1 <= |t[n].family| <= 10 && forall m :: 0 <= m < |t| ==> t[m].family != []
    ensures var u, children := Insert(t, n, [token], start, end, kind).0, |t[n].family| - 1;
            if children == 9 then u == t
            else n < |u| == |t| + 1 && u[n].family == t[n].family + [|t|] && u[|t|] == Inode(token, start, end, kind, [n])
  {
    Rooted(t);
    NodeIs(t, n);
    assert FindFamily(t, n, token) == 0;
  }

  // A name for which a full directory has no place is skipped: what follows it in the path is
  // put into that directory's own child, where its path does not lead.
  lemma StrayChild(t: Tree, n: nat, skipped: string, dir: string, leaf: string, k: nat, start: nat, end: nat, kind: Kind)
    requires TreeOk(t) && n < |t| && |t[n].family| == 10 && FindFamily(t, n, dir) == k > 0
    requires forall j :: 1 <= j < 10 ==> !Matches(t, n, j, skipped)
    ensures t[n].family[k] < |t| && forall m :: 0 <= m < |t| ==> t[m].family != []
    ensures var c, u := t[n].family[k], Insert(t, n, [skipped, dir, leaf], start, end, kind).0;
            FindFamily(t, c, leaf) == 0 && |t[c].family| < 10 ==>
              && |u| == |t| + 1 && u[c].family == t[c].family + [|t|] && u[|t|] == Inode(leaf, start, end, kind, [c])
              && (forall m :: 0 <= m < |u| ==> u[m].family != []) && Resolve(u, n, [skipped, dir, leaf]) == None
  {
    Rooted(t);
    NodeIs(t, n);
    var c := t[n].family[k];
    assert FindFamily(t, n, skipped) == 0;
    var path := [skipped, dir, leaf];
    assert path[1..] == [dir, leaf] && [dir, leaf][1..] == [leaf];
    assert Insert(t, n, path, start, end, kind) == Insert(t, c, [leaf], start, end, kind);
    InsertResolvesIff(t, n, path, start, end, kind);
  }

  // A file "a" after a file "ab" beside it gets no inode; its path leads to "ab".
  lemma PrefixHappens()
    ensures TreeOk([RootInode()])
    ensures var first, second := Found("ab", 512, 600, File), Found("a", 1536, 1600, File);
            && var t := InsertAll([RootInode()], [first]);
            && |t| == 2 && Matches(t, 0, 1, "a") && t[1].name == "ab"
            && InsertAll(t, [second]) == t && LeadsTo(t, first) && !LeadsTo(t, second)
  {
  }

  // ----------------------------------------------------------------- in place

  // Names as they are kept in their buffers hold no zero character.
  ghost predicate NamesOk(t: Tree) {
    forall n {:trigger t[n]} :: 0 <= n < |t| ==> NUL !in t[n].name
  }

  lemma NameOk(t: Tree, n: nat)
    requires NamesOk(t) && n < |t|
    ensures NUL !in t[n].name
  {
  }

  lemma TextOf(s: string)
    requires NUL !in s
    ensures Terminated(s + [NUL]) && Text(s + [NUL]) == s
  {
    TextIs(s + [NUL], s);
  }

  lemma FindFamilyAt(t: Tree, n: nat, token: string, i: nat)
    requires n < |t| && 1 <= i <= |t[n].family|
    requires forall j :: 1 <= j < i ==> !Matches(t, n, j, token)
    ensures FindFamily(t, n, token) == if i == |t[n].family| then 0 else FindFamily(t, n, token, i)
  {
    if i < |t[n].family| {
      FindFamilyFrom(t, n, token, 1, i);
    }
  }

  lemma {:induction false} FindFamilyFrom(t: Tree, n: nat, token: string, from: nat, i: nat)
    requires n < |t| && 1 <= from <= i <= |t[n].family|
    requires forall j :: from <= j < i ==> !Matches(t, n, j, token)
    ensures FindFamily(t, n, token, from) == FindFamily(t, n, token, i)
    decreases i - from
  {
    if from < i {
      FindFamilyFrom(t, n, token, from + 1, i);
    }
  }

  // One token of an insertion.
  function InsertStep(t: Tree, n: nat, token: string, start: nat, end: nat, kind: Kind): (Tree, nat)
    requires n < |t| && t[n].family != []
  {
    var k := FindFamily(t, n, token);
    if k > 0 then (t, t[n].family[k])
    else if |t[n].family| >= MAX_FAMILY then (t, n)
    else (Appended(t, n, token, start, end, kind), |t|)
  }

  lemma InsertUnfold(t: Tree, n: nat, tokens: seq<string>, start: nat, end: nat, kind: Kind)
    requires n < |t| && tokens != [] && forall m :: 0 <= m < |t| ==> t[m].family != []
    ensures var (u, next) := InsertStep(t, n, tokens[0], start, end, kind);
            && next < |u| && (forall m :: 0 <= m < |u| ==> u[m].family != [])
            && Insert(t, n, tokens, start, end, kind) == Insert(u, next, tokens[1..], start, end, kind)
  {
  }

  class FileSystem {
    var inodes: Tree

    ghost predicate Valid()
      reads this
    {
      TreeOk(inodes) && NamesOk(inodes)
    }

    constructor ()
      ensures Valid() && inodes == [RootInode()] == [Inode("/", 0, 1, Dir, [0])]
    {
      inodes := [RootInode()];
    }

    // findFamily
    method FindFamilyMember(node: nat, token: string) returns (i: nat)
      requires Valid() && node < |inodes| && NUL !in token
      ensures inodes[node].family != [] && i == FindFamily(inodes, node, token)
      ensures i > 0 ==> i < |inodes[node].family| && inodes[node].family[i] < |inodes|
    {
      ChildrenIn(inodes, node);
      hide TreeOk, Text, Matches, FindFamily, NamesOk, Terminated;
      var f := inodes[node].family;
      i := 1;
      while i < |f|
        invariant 1 <= i <= |f| && forall j :: 1 <= j < i ==> !Matches(inodes, node, j, token)
      {
        NameOk(inodes, f[i]);
        TextOf(inodes[f[i]].name);
        TextOf(token);
        var r := StrNCmp(inodes[f[i]].name + [NUL], token + [NUL], |token|);
        MatchAt(inodes, node, i, token);
        if r == 0 {
          FindFamilyAt(inodes, node, token, i);
          return;
        }
        i := i + 1;
      }
      FindFamilyAt(inodes, node, token, i);
      i := 0;
    }

    // appendToFamily: the place of the new child, or -1 when the directory is full.
    method AppendToFamily(node: nat, token: string, start: nat, end: nat, kind: Kind) returns (place: int)
      requires Valid() && node < |inodes| && NUL !in token
      modifies this
      ensures Valid()
      ensures if |old(inodes)[node].family| >= MAX_FAMILY then place == -1 && inodes == old(inodes)
              else place == |old(inodes)[node].family| && inodes == Appended(old(inodes), node, token, start, end, kind)
      ensures place > 0 ==> place < |inodes[node].family| && inodes[node].family[place] == |old(inodes)| < |inodes|
    {
      NodeIs(inodes, node);
      if |inodes[node].family| >= MAX_FAMILY {
        return -1;
      }
      AppendedOk(inodes, node, token, start, end, kind);
      place := |inodes[node].family|;
      inodes := inodes[node := inodes[node].(family := inodes[node].family + [|inodes|])] + [NewInode(node, token, start, end, kind)];
    }

    // One round of the loop of InsertIntoRoot.
    method InsertToken(node: nat, token: string, start: nat, end: nat, kind: Kind) returns (next: nat)
      requires Valid() && node < |inodes| && NUL !in token
      requires inodes[node].family != []
      modifies this
      ensures Valid() && (inodes, next) == InsertStep(old(inodes), node, token, start, end, kind) && next < |inodes|
      ensures forall m :: 0 <= m < |inodes| ==> inodes[m].family != []
    {
      hide TreeOk, Appended, NamesOk, Matches;
      var member: int := FindFamilyMember(node, token);
      FamilySize(inodes, node);
      if member == 0 {
        AppendedSize(inodes, node, token, start, end, kind);
        member := AppendToFamily(node, token, start, end, kind);
        FamilySize(inodes, node);
      }
      next := node;
      if 0 < member < MAX_FAMILY {
        next := inodes[node].family[member];
      }
      Rooted(inodes);
    }

    // InsertIntoRoot: when a directory is full, the rest of the path goes on from it.
    method InsertIntoRoot(path: seq<char>, start: nat, end: nat, kind: Kind) returns (ghost last: nat)
      requires Valid() && Terminated(path)
      modifies this
      ensures Valid() && old(inodes) != [] && forall m :: 0 <= m < |old(inodes)| ==> old(inodes)[m].family != []
      ensures (inodes, last) == Insert(old(inodes), 0, Tokens(Text(path), SLASH), start, end, kind)
    {
      hide TreeOk, Tokens, Text, Appended, NamesOk, Clean;
      Rooted(inodes);
      ghost var t0, s := inodes, Text(path);
      var node: nat, pos: nat := 0, 0;
      assert s[0..] == s;
      var token;
      token, pos := MyStrTok(path, SLASH, pos);
      ghost var rest := Tokens(s, SLASH);
      while token != None
        invariant Valid() && node < |inodes| && pos <= |s| && forall m :: 0 <= m < |inodes| ==> inodes[m].family != []
        invariant token.None? ==> rest == []
        invariant token.Some? ==> NUL !in token.value && rest == [token.value] + Tokens(s[pos..], SLASH)
        invariant Insert(inodes, node, rest, start, end, kind) == Insert(t0, 0, Tokens(s, SLASH), start, end, kind)
        decreases |rest|
      {
        assert rest[0] == token.value && rest[1..] == Tokens(s[pos..], SLASH);
        InsertUnfold(inodes, node, rest, start, end, kind);
        node := InsertToken(node, token.value, start, end, kind);
        rest := rest[1..];
        token, pos := MyStrTok(path, SLASH, pos);
      }
      last := node;
    }

    // GetInode
    method GetInode(path: seq<char>) returns (r: Option<nat>)
      requires Valid() && Terminated(path)
      ensures inodes != [] && forall m :: 0 <= m < |inodes| ==> inodes[m].family != []
      ensures r == Resolve(inodes, 0, Tokens(Text(path), SLASH))
    {
      hide TreeOk, Tokens, Text, NamesOk, Clean;
      Rooted(inodes);
      ghost var s := Text(path);
      var node: nat, pos: nat := 0, 0;
      assert s[0..] == s;
      var token;
      token, pos := MyStrTok(path, SLASH, pos);
      ghost var rest := Tokens(s, SLASH);
      while token != None
        invariant node < |inodes| && pos <= |s|
        invariant token.None? ==> rest == []
        invariant token.Some? ==> NUL !in token.value && rest == [token.value] + Tokens(s[pos..], SLASH)
        invariant Resolve(inodes, node, rest) == Resolve(inodes, 0, Tokens(s, SLASH))
        decreases |rest|
      {
        assert rest[0] == token.value && rest[1..] == Tokens(s[pos..], SLASH);
        var member := FindFamilyMember(node, token.value);
        if member == 0 {
          return None;
        }
        FamilySize(inodes, node);
        if 0 < member < MAX_FAMILY {
          node := inodes[node].family[member];
        }
        rest := rest[1..];
        token, pos := MyStrTok(path, SLASH, pos);
      }
      r := Some(node);
    }

    // init_tarfs: the members of the archive, in order.
    method InitTarfs(image: seq<Block>, ghost ms: seq<Member>, ghost tail: seq<Block>)
      requires inodes == [RootInode()] && Valid()
      requires ImageOk(ms) && image == Blocks(ms) + tail && forall i :: 0 <= i < |tail| ==> Zero(tail[i])
      modifies this
      ensures Valid() && TreeOk([RootInode()]) && inodes == InsertAll([RootInode()], Listing(ms, 0))
      ensures forall i {:trigger ms[i]} :: 0 <= i < |ms| && Wanted(ms[i].header) ==> Served(inodes, ms, i)
    {
      hide TreeOk, NamesOk, Listing, Insert, Tokens, RootInode, Served, Lists;
      var found := Walk(image, ms, tail);
      ListingNames(ms, 0);
      ghost var t0 := inodes;
      assert found[0..] == found;
      for i := 0 to |found|
        invariant Valid() && InsertAll(inodes, found[i..]) == InsertAll(t0, found)
      {
        var f := found[i];
        TextOf(f.name);
        assert found[i..][0] == f && found[i..][1..] == found[i + 1..];
        ghost var last := InsertIntoRoot(f.name + [NUL], f.start, f.end, f.kind);
      }
      assert found[|found|..] == [];
      AllServed(ms);
    }
  }

  lemma AllServed(ms: seq<Member>)
    requires ImageOk(ms) && TreeOk([RootInode()])
    ensures forall i {:trigger ms[i]} :: 0 <= i < |ms| && Wanted(ms[i].header) ==>
              Served(InsertAll([RootInode()], Listing(ms, 0)), ms, i)
  {
    hide TreeOk, Served, Listing, ImageOk, RootInode, Wanted;
    forall i {:trigger ms[i]} | 0 <= i < |ms| && Wanted(ms[i].header)
      ensures Served(InsertAll([RootInode()], Listing(ms, 0)), ms, i)
    {
      MembersServed(ms, i);
    }
  }

  lemma FamilySize(t: Tree, n: nat)
    requires TreeOk(t) && n < |t|
    ensures |t[n].family| <= MAX_FAMILY
  {
    NodeIs(t, n);
  }

  lemma ChildrenIn(t: Tree, n: nat)
    requires TreeOk(t) && n < |t|
    ensures t[n].family != [] && forall k :: 1 <= k < |t[n].family| ==> t[n].family[k] < |t|
  {
    NodeIs(t, n);
  }

  // What the comparison of as many characters as the token has decides.
  lemma MatchAt(t: Tree, n: nat, k: nat, token: string)
    requires n < |t| && 1 <= k < |t[n].family| && t[n].family[k] < |t|
    ensures var name := t[t[n].family[k]].name;
            Matches(t, n, k, token) <==> |token| <= |name| && name[..|token|] == token[..|token|]
  {
    PrefixOf(token, t[t[n].family[k]].name);
  }

  lemma PrefixOf(token: string, name: string)
    ensures |token| <= |name| && name[..|token|] == token[..|token|] <==> token <= name
  {
    assert token[..|token|] == token;
  }

  // Names in a listing end before a zero character.
  lemma {:induction false} ListingNames(ms: seq<Member>, at: nat)
    requires ImageOk(ms)
    ensures forall k :: 0 <= k < |Listing(ms, at)| ==> NUL !in Listing(ms, at)[k].name
    decreases |ms|
  {
    hide MemberOk;
    if ms != [] {
      EntryNames(ms[0], at);
      ListingNames(ms[1..], at + 1 + |ms[0].data|);
    }
  }

  lemma EntryNames(m: Member, at: nat)
    requires MemberOk(m)
    ensures forall k :: 0 <= k < |Archive.Entry(m, at)| ==> NUL !in Archive.Entry(m, at)[k].name
  {
  }
}
