/**
 * Directories and link counts: `dirlookup` and `dirlink` of kernel/fs.c, and `create`, `link` and
 * `unlink` of kernel/sysfile.c.  A directory's content is its sequence of entries; an entry with
 * inode number 0 is an empty slot.  Names are at most 14 characters, as `skipelem` cuts them.
 */
module Links {

  datatype Kind = Free | Dir | File | Device

  datatype Entry = Entry(inum: nat, name: string)

  datatype Inode = Inode(kind: Kind, nlink: nat, ents: seq<Entry>)

  const ROOT: nat := 1

  /** The inode table, by inode number. */
  type Table = seq<Inode>

  predicate Live(t: Table, d: nat) { d < |t| && t[d].kind == Dir && t[d].nlink > 0 }

  // ---- Counting ----

  /** Entry `k` of the live directory `d` names inode `i`, and is not ".". */
  predicate Names(t: Table, d: nat, k: nat, i: nat) {
    Live(t, d) && k < |t[d].ents| && t[d].ents[k].inum == i && t[d].ents[k].name != "."
  }

  ghost function Refs(t: Table, i: nat): set<(nat, nat)> {
    set d: nat, k: nat | d < |t| && k < |t[d].ents| && Names(t, d, k, i) :: (d, k)
  }

  /** Every link count is the number of entries in live directories that name the inode. */
  ghost predicate Counts(t: Table) {
    forall i: nat {:trigger Refs(t, i)} :: 0 < i < |t| ==> t[i].nlink == |Refs(t, i)|
  }

  lemma InRefs(t: Table, i: nat, d: nat, k: nat)
    ensures (d, k) in Refs(t, i) <==> Names(t, d, k, i)
  {
  }

  lemma RefsSame(t: Table, t': Table, i: nat)
    requires forall d: nat, k: nat {:trigger Names(t', d, k, i)} :: Names(t', d, k, i) <==> Names(t, d, k, i)
    ensures Refs(t', i) == Refs(t, i)
  {
    forall d: nat, k: nat ensures (d, k) in Refs(t', i) <==> (d, k) in Refs(t, i) {
      InRefs(t, i, d, k);
      InRefs(t', i, d, k);
    }
  }

  lemma RefsMore(t: Table, t': Table, i: nat, d0: nat, k0: nat)
    requires !Names(t, d0, k0, i)
    requires forall d: nat, k: nat {:trigger Names(t', d, k, i)} :: Names(t', d, k, i) <==>
               Names(t, d, k, i) || (d == d0 && k == k0)
    ensures |Refs(t', i)| == |Refs(t, i)| + 1
  {
    forall d: nat, k: nat ensures (d, k) in Refs(t', i) <==> (d, k) in Refs(t, i) + {(d0, k0)} {
      InRefs(t, i, d, k);
      InRefs(t', i, d, k);
    }
    assert Refs(t', i) == Refs(t, i) + {(d0, k0)};
  }

  // ---- Directories ----

  /** Entry `k` of `d` is an ordinary one and names `i`. */
  predicate Holds(t: Table, d: nat, k: nat, i: nat) {
    Live(t, d) && 2 <= k < |t[d].ents| && t[d].ents[k].inum == i && i != 0
  }

  /** Some ordinary entry of `p` names `d`. */
  ghost predicate Held(t: Table, p: nat, d: nat) { exists k: nat :: Holds(t, p, k, d) }

  /** No name occurs twice. */
  ghost predicate Unique(es: seq<Entry>) {
    forall j, k :: 0 <= j < k < |es| && es[j].inum != 0 && es[k].inum != 0 ==> es[j].name != es[k].name
  }

  /** "." and ".." come first, and no other entry has such a name. */
  ghost predicate Dots(es: seq<Entry>, d: nat) {
    && |es| >= 2 && es[0] == Entry(d, ".") && es[1].name == ".." && es[1].inum != 0
    && forall k :: 2 <= k < |es| && es[k].inum != 0 ==> es[k].name != "." && es[k].name != ".."
  }

  /** The parent is alive and names the directory, unless it is the root. */
  ghost predicate Rooted(t: Table, d: nat, p: nat) {
    if d == ROOT then p == ROOT else Live(t, p) && Held(t, p, d)
  }

  ghost predicate DirOk(t: Table, d: nat) {
    d < |t| && Dots(t[d].ents, d) && Unique(t[d].ents) && Rooted(t, d, t[d].ents[1].inum)
  }

  ghost predicate DirsOk(t: Table) {
    forall d: nat {:trigger DirOk(t, d)} :: Live(t, d) ==> DirOk(t, d)
  }

  /** What an ordinary entry may name: an inode in use, not the root; a directory only if the entry is
      the one in its parent. */
  ghost predicate TargetOk(t: Table, d: nat, k: nat, i: nat) {
    && i < |t| && t[i].kind != Free && i != ROOT
    && (t[i].kind == Dir ==> Live(t, i) && |t[i].ents| >= 2 && t[i].ents[1].inum == d)
  }

  ghost predicate TreeOk(t: Table) {
    && |t| > 1 && Live(t, ROOT) && t[0].kind == Free
    && (forall d: nat, k: nat, i: nat {:trigger Holds(t, d, k, i)} :: Holds(t, d, k, i) ==> TargetOk(t, d, k, i))
    && (forall d: nat, j: nat, k: nat, i: nat {:trigger Holds(t, d, j, i), Holds(t, d, k, i)} ::
          Holds(t, d, j, i) && Holds(t, d, k, i) && t[i].kind == Dir ==> j == k)
    && (forall i: nat :: i < |t| && t[i].kind == Free ==> t[i] == Inode(Free, 0, []))
  }

  /** Only "." and ".." are in use. */
  ghost predicate OnlyDots(es: seq<Entry>, n: nat) {
    forall k :: 0 <= k < |es| && es[k].inum != 0 ==> (es[k].name == "." || es[k].name == "..") && es[k].inum < n
  }

  /** A directory that has been removed, but is still somebody's current directory, is empty. */
  ghost predicate DeadOk(t: Table) {
    forall d :: 0 <= d < |t| && t[d].kind == Dir && t[d].nlink == 0 ==> OnlyDots(t[d].ents, |t|)
  }

  ghost predicate Inv(t: Table) { Counts(t) && DirsOk(t) && TreeOk(t) && DeadOk(t) }

  // ---- Changing one entry ----

  function Put(es: seq<Entry>, k: nat, e: Entry): seq<Entry>
    requires k <= |es|
  {
    if k < |es| then es[k := e] else es + [e]
  }

  function PutEntry(t: Table, d: nat, k: nat, e: Entry): Table
    requires d < |t| && k <= |t[d].ents|
  {
    t[d := Inode(t[d].kind, t[d].nlink, Put(t[d].ents, k, e))]
  }

  function SetLinks(t: Table, i: nat, n: nat): Table
    requires i < |t|
  {
    t[i := Inode(t[i].kind, n, t[i].ents)]
  }

  /** A slot that can take a new entry: empty, or one past the end. */
  predicate Slot(es: seq<Entry>, k: nat) { 2 <= k <= |es| && (k < |es| ==> es[k].inum == 0) }

  /** A name that can be added. */
  predicate Fresh(es: seq<Entry>, name: string) {
    name != "." && name != ".." && forall k :: 0 <= k < |es| && es[k].inum != 0 ==> es[k].name != name
  }

  // ---- link ----

  /** A file gets another name. */
  function Linked(t: Table, d: nat, k: nat, name: string, i: nat): Table
    requires d < |t| && i < |t| && k <= |t[d].ents|
  {
    SetLinks(PutEntry(t, d, k, Entry(i, name)), i, t[i].nlink + 1)
  }

  ghost predicate CanLink(t: Table, d: nat, k: nat, name: string, i: nat) {
    && Live(t, d) && 0 < i < |t| && t[i].kind != Dir && t[i].kind != Free && i != d
    && Slot(t[d].ents, k) && Fresh(t[d].ents, name)
  }

  lemma LinkNames(t: Table, d: nat, k: nat, name: string, i: nat, g: nat, j: nat, x: nat)
    requires Inv(t) && CanLink(t, d, k, name, i) && x != 0
    ensures var t' := Linked(t, d, k, name, i);
            && (Names(t', g, j, x) <==> Names(t, g, j, x) || (g == d && j == k && x == i))
            && (Holds(t', g, j, x) <==> Holds(t, g, j, x) || (g == d && j == k && x == i))
  {
  }

  lemma LinkCounts(t: Table, d: nat, k: nat, name: string, i: nat)
    requires Inv(t) && CanLink(t, d, k, name, i)
    ensures Counts(Linked(t, d, k, name, i))
  {
    var t' := Linked(t, d, k, name, i);
    forall x: nat | 0 < x < |t'| ensures t'[x].nlink == |Refs(t', x)| {
      assert t[x].nlink == |Refs(t, x)|;
      forall g: nat, j: nat ensures Names(t', g, j, x) <==> Names(t, g, j, x) || (g == d && j == k && x == i) {
        LinkNames(t, d, k, name, i, g, j, x);
      }
      if x == i { RefsMore(t, t', x, d, k); } else { RefsSame(t, t', x); }
    }
  }

  lemma UniqueMore(es: seq<Entry>, k: nat, e: Entry)
    requires Unique(es) && Slot(es, k) && Fresh(es, e.name)
    ensures Unique(Put(es, k, e))
  {
  }

  lemma DotsMore(es: seq<Entry>, d: nat, k: nat, e: Entry)
    requires Dots(es, d) && Slot(es, k) && e.name != "." && e.name != ".."
    ensures Dots(Put(es, k, e), d)
  {
  }

  /** If `p` held `d` before and every ordinary entry is still there, it still does. */
  lemma StillHeld(t: Table, t': Table, p: nat, d: nat)
    requires Held(t, p, d) && forall k: nat {:trigger Holds(t', p, k, d)} :: Holds(t, p, k, d) ==> Holds(t', p, k, d)
    ensures Held(t', p, d)
  {
    var k: nat :| Holds(t, p, k, d);
    assert Holds(t', p, k, d);
  }

  lemma LinkDirs(t: Table, d: nat, k: nat, name: string, i: nat)
    requires Inv(t) && CanLink(t, d, k, name, i)
    ensures DirsOk(Linked(t, d, k, name, i))
  {
    var t' := Linked(t, d, k, name, i);
    forall g: nat | Live(t', g) ensures DirOk(t', g) {
      assert Live(t, g) && DirOk(t, g);
      if g == d {
        UniqueMore(t[d].ents, k, Entry(i, name));
        DotsMore(t[d].ents, d, k, Entry(i, name));
      }
      if g != ROOT {
        var p := t[g].ents[1].inum;
        forall j: nat | Holds(t, p, j, g) ensures Holds(t', p, j, g) {
          LinkNames(t, d, k, name, i, p, j, g);
        }
        StillHeld(t, t', p, g);
      }
    }
  }

  lemma LinkTree(t: Table, d: nat, k: nat, name: string, i: nat)
    requires Inv(t) && CanLink(t, d, k, name, i)
    ensures TreeOk(Linked(t, d, k, name, i))
  {
    var t' := Linked(t, d, k, name, i);
    assert DirOk(t, d);
    forall g: nat, j: nat, x: nat | Holds(t', g, j, x) ensures TargetOk(t', g, j, x) {
      LinkNames(t, d, k, name, i, g, j, x);
      assert Holds(t, g, j, x) ==> TargetOk(t, g, j, x);
    }
    forall g: nat, j: nat, l: nat, x: nat | Holds(t', g, j, x) && Holds(t', g, l, x) && t'[x].kind == Dir
      ensures j == l
    {
      LinkNames(t, d, k, name, i, g, j, x);
      LinkNames(t, d, k, name, i, g, l, x);
    }
  }

  lemma LinkKeeps(t: Table, d: nat, k: nat, name: string, i: nat)
    requires Inv(t) && CanLink(t, d, k, name, i)
    ensures Inv(Linked(t, d, k, name, i))
  {
    LinkCounts(t, d, k, name, i);
    LinkDirs(t, d, k, name, i);
    LinkTree(t, d, k, name, i);
  }

  /** With everything else in order, the counts stay right exactly when the directory has not been removed: an
      entry in a removed directory is not counted. */
  lemma LinkExact(t: Table, d: nat, k: nat, name: string, i: nat)
    requires Inv(t) && 0 < i < |t| && t[i].kind != Dir && t[i].kind != Free && d < |t| && t[d].kind == Dir
             && k <= |t[d].ents|
    requires Live(t, d) ==> Slot(t[d].ents, k) && Fresh(t[d].ents, name)
    ensures Inv(Linked(t, d, k, name, i)) <==> Live(t, d)
  {
    if Live(t, d) {
      LinkKeeps(t, d, k, name, i);
    } else {
      var t' := Linked(t, d, k, name, i);
      forall g: nat, j: nat ensures Names(t', g, j, i) <==> Names(t, g, j, i) {
      }
      RefsSame(t, t', i);
      assert t[i].nlink == |Refs(t, i)| && t'[i].nlink == t[i].nlink + 1;
    }
  }

  // ---- An inode without links ----

  ghost predicate CanReplace(t: Table, i: nat, n: Inode) {
    && Inv(t) && 1 < i < |t| && t[i].nlink == 0 && n.nlink == 0
    && (n.kind == Free ==> n.ents == []) && (n.kind == Dir ==> OnlyDots(n.ents, |t|))
  }

  lemma ReplaceNames(t: Table, i: nat, n: Inode, g: nat, j: nat, x: nat)
    requires CanReplace(t, i, n)
    ensures (Names(t[i := n], g, j, x) <==> Names(t, g, j, x)) && (Holds(t[i := n], g, j, x) <==> Holds(t, g, j, x))
  {
  }

  lemma ReplaceCounts(t: Table, i: nat, n: Inode)
    requires CanReplace(t, i, n)
    ensures Counts(t[i := n])
  {
    var t' := t[i := n];
    forall x: nat | 0 < x < |t'| ensures t'[x].nlink == |Refs(t', x)| {
      assert t[x].nlink == |Refs(t, x)|;
      forall g: nat, j: nat ensures Names(t', g, j, x) <==> Names(t, g, j, x) {
        ReplaceNames(t, i, n, g, j, x);
      }
      RefsSame(t, t', x);
    }
  }

  lemma ReplaceDirs(t: Table, i: nat, n: Inode)
    requires CanReplace(t, i, n)
    ensures DirsOk(t[i := n])
  {
    var t' := t[i := n];
    forall g: nat | Live(t', g) ensures DirOk(t', g) {
      assert Live(t, g) && DirOk(t, g);
      if g != ROOT {
        var p := t[g].ents[1].inum;
        forall j: nat | Holds(t, p, j, g) ensures Holds(t', p, j, g) {
          ReplaceNames(t, i, n, p, j, g);
        }
        StillHeld(t, t', p, g);
      }
    }
  }

  lemma ReplaceTree(t: Table, i: nat, n: Inode)
    requires CanReplace(t, i, n)
    ensures TreeOk(t[i := n])
  {
    var t' := t[i := n];
    NoRefs(t, i);
    forall g: nat, j: nat, x: nat | Holds(t', g, j, x) ensures TargetOk(t', g, j, x) {
      ReplaceNames(t, i, n, g, j, x);
      assert TargetOk(t, g, j, x);
    }
    forall g: nat, j: nat, l: nat, x: nat | Holds(t', g, j, x) && Holds(t', g, l, x) && t'[x].kind == Dir
      ensures j == l
    {
      ReplaceNames(t, i, n, g, j, x);
      ReplaceNames(t, i, n, g, l, x);
    }
  }

  /** What happens to an inode without links does not matter: `ialloc` before the first link, the
      content of a directory being made, and the freeing of an inode in `iput`. */
  lemma ReplaceKeeps(t: Table, i: nat, n: Inode)
    requires CanReplace(t, i, n)
    ensures Inv(t[i := n])
  {
    ReplaceCounts(t, i, n);
    ReplaceDirs(t, i, n);
    ReplaceTree(t, i, n);
  }

  /** An inode whose count is 0 is named nowhere. */
  lemma NoRefs(t: Table, i: nat)
    requires Inv(t) && 0 < i < |t| && t[i].nlink == 0
    ensures forall d: nat, k: nat {:trigger Names(t, d, k, i)} :: !Names(t, d, k, i)
    ensures forall d: nat, k: nat {:trigger Holds(t, d, k, i)} :: !Holds(t, d, k, i)
  {
    assert |Refs(t, i)| == 0;
    forall d: nat, k: nat ensures !Names(t, d, k, i) {
      InRefs(t, i, d, k);
    }
    forall d: nat, k: nat ensures Holds(t, d, k, i) ==> Names(t, d, k, i) {
      if Live(t, d) { assert DirOk(t, d); }
    }
  }

  // ---- mkdir ----

  /** The new directory `i` gets its name in `d`, and `d` another link for "..". */
  function Made(t: Table, d: nat, k: nat, name: string, i: nat): Table
    requires d < |t| && i < |t| && k <= |t[d].ents|
  {
    var t1 := SetLinks(t, i, 1);
    var t2 := PutEntry(t1, d, if k <= |t1[d].ents| then k else 0, Entry(i, name));
    SetLinks(t2, d, t2[d].nlink + 1)
  }

  ghost predicate CanMake(t: Table, d: nat, k: nat, name: string, i: nat) {
    && Live(t, d) && 1 < i < |t| && i != d && t[i] == Inode(Dir, 0, [Entry(i, "."), Entry(d, "..")]) && d != 0
    && Slot(t[d].ents, k) && Fresh(t[d].ents, name)
  }

  lemma MakeNames(t: Table, d: nat, k: nat, name: string, i: nat, g: nat, j: nat, x: nat)
    requires CanMake(t, d, k, name, i) && x != 0
    ensures var t' := Made(t, d, k, name, i);
            && (Names(t', g, j, x) <==>
                 Names(t, g, j, x) || (g == d && j == k && x == i) || (g == i && j == 1 && x == d))
            && (Holds(t', g, j, x) <==> Holds(t, g, j, x) || (g == d && j == k && x == i))
  {
  }

  lemma MakeCounts(t: Table, d: nat, k: nat, name: string, i: nat)
    requires Inv(t) && CanMake(t, d, k, name, i)
    ensures Counts(Made(t, d, k, name, i))
  {
    var t' := Made(t, d, k, name, i);
    forall x: nat | 0 < x < |t'| ensures t'[x].nlink == |Refs(t', x)| {
      assert t[x].nlink == |Refs(t, x)|;
      forall g: nat, j: nat ensures Names(t', g, j, x) <==>
          Names(t, g, j, x) || (g == d && j == k && x == i) || (g == i && j == 1 && x == d) {
        MakeNames(t, d, k, name, i, g, j, x);
      }
      if x == i { RefsMore(t, t', x, d, k); } else if x == d { RefsMore(t, t', x, i, 1); } else { RefsSame(t, t', x); }
    }
  }

  lemma MakeDirs(t: Table, d: nat, k: nat, name: string, i: nat)
    requires Inv(t) && CanMake(t, d, k, name, i)
    ensures DirsOk(Made(t, d, k, name, i))
  {
    var t' := Made(t, d, k, name, i);
    forall g: nat | Live(t', g) ensures DirOk(t', g) {
      if g == i {
        MakeNames(t, d, k, name, i, d, k, i);
        assert Held(t', d, i);
      } else {
        assert Live(t, g) && DirOk(t, g);
        if g == d {
          UniqueMore(t[d].ents, k, Entry(i, name));
          DotsMore(t[d].ents, d, k, Entry(i, name));
        }
        if g != ROOT {
          var p := t[g].ents[1].inum;
          forall j: nat | Holds(t, p, j, g) ensures Holds(t', p, j, g) {
            MakeNames(t, d, k, name, i, p, j, g);
          }
          StillHeld(t, t', p, g);
        }
      }
    }
  }

  lemma MakeTree(t: Table, d: nat, k: nat, name: string, i: nat)
    requires Inv(t) && CanMake(t, d, k, name, i)
    ensures TreeOk(Made(t, d, k, name, i))
  {
    var t' := Made(t, d, k, name, i);
    NoRefs(t, i);
    assert DirOk(t, d);
    forall g: nat, j: nat, x: nat | Holds(t', g, j, x) ensures TargetOk(t', g, j, x) {
      MakeNames(t, d, k, name, i, g, j, x);
      assert Holds(t, g, j, x) ==> TargetOk(t, g, j, x);
    }
    forall g: nat, j: nat, l: nat, x: nat | Holds(t', g, j, x) && Holds(t', g, l, x) && t'[x].kind == Dir
      ensures j == l
    {
      MakeNames(t, d, k, name, i, g, j, x);
      MakeNames(t, d, k, name, i, g, l, x);
    }
  }

  lemma MakeKeeps(t: Table, d: nat, k: nat, name: string, i: nat)
    requires Inv(t) && CanMake(t, d, k, name, i)
    ensures Inv(Made(t, d, k, name, i))
  {
    MakeCounts(t, d, k, name, i);
    MakeDirs(t, d, k, name, i);
    MakeTree(t, d, k, name, i);
  }

  // ---- unlink ----

  function Gone(): Entry { Entry(0, "") }

  /** A file loses a name. */
  function Unlinked(t: Table, d: nat, k: nat, i: nat): Table
    requires d < |t| && i < |t| && k < |t[d].ents| && t[i].nlink > 0
  {
    SetLinks(PutEntry(t, d, k, Gone()), i, t[i].nlink - 1)
  }

  ghost predicate CanUnlink(t: Table, d: nat, k: nat, i: nat) {
    Inv(t) && Holds(t, d, k, i) && i < |t| && t[i].kind != Dir && t[i].nlink > 0
  }

  lemma UnlinkNames(t: Table, d: nat, k: nat, i: nat, g: nat, j: nat, x: nat)
    requires CanUnlink(t, d, k, i) && x != 0
    ensures var t' := Unlinked(t, d, k, i);
            && (Names(t', g, j, x) <==> Names(t, g, j, x) && !(g == d && j == k))
            && (Holds(t', g, j, x) <==> Holds(t, g, j, x) && !(g == d && j == k))
  {
  }

  /** An ordinary entry counts. */
  lemma HoldsCounts(t: Table, d: nat, k: nat, i: nat)
    requires Inv(t) && Holds(t, d, k, i)
    ensures Names(t, d, k, i) && i < |t| && t[i].nlink > 0
  {
    assert DirOk(t, d) && TargetOk(t, d, k, i);
    InRefs(t, i, d, k);
    assert t[i].nlink == |Refs(t, i)|;
  }

  lemma UnlinkCounts(t: Table, d: nat, k: nat, i: nat)
    requires CanUnlink(t, d, k, i)
    ensures Counts(Unlinked(t, d, k, i))
  {
    var t' := Unlinked(t, d, k, i);
    HoldsCounts(t, d, k, i);
    forall x: nat | 0 < x < |t'| ensures t'[x].nlink == |Refs(t', x)| {
      assert t[x].nlink == |Refs(t, x)|;
      forall g: nat, j: nat ensures Names(t', g, j, x) <==> Names(t, g, j, x) && !(g == d && j == k) {
        UnlinkNames(t, d, k, i, g, j, x);
      }
      if x == i {
        forall g: nat, j: nat ensures Names(t, g, j, x) <==> Names(t', g, j, x) || (g == d && j == k) {
        }
        RefsMore(t', t, x, d, k);
      } else {
        RefsSame(t, t', x);
      }
    }
  }

  lemma UniqueLess(es: seq<Entry>, d: nat, k: nat)
    requires Unique(es) && Dots(es, d) && 2 <= k < |es|
    ensures Unique(Put(es, k, Gone())) && Dots(Put(es, k, Gone()), d)
  {
  }

  lemma UnlinkDirs(t: Table, d: nat, k: nat, i: nat)
    requires CanUnlink(t, d, k, i)
    ensures DirsOk(Unlinked(t, d, k, i))
  {
    var t' := Unlinked(t, d, k, i);
    forall g: nat | Live(t', g) ensures DirOk(t', g) {
      assert Live(t, g) && DirOk(t, g);
      if g == d {
        UniqueLess(t[d].ents, d, k);
      }
      if g != ROOT {
        var p := t[g].ents[1].inum;
        forall j: nat | Holds(t, p, j, g) ensures Holds(t', p, j, g) {
          UnlinkNames(t, d, k, i, p, j, g);
        }
        StillHeld(t, t', p, g);
      }
    }
  }

  lemma UnlinkTree(t: Table, d: nat, k: nat, i: nat)
    requires CanUnlink(t, d, k, i)
    ensures TreeOk(Unlinked(t, d, k, i))
  {
    var t' := Unlinked(t, d, k, i);
    assert DirOk(t, d);
    forall g: nat, j: nat, x: nat | Holds(t', g, j, x) ensures TargetOk(t', g, j, x) {
      UnlinkNames(t, d, k, i, g, j, x);
      assert TargetOk(t, g, j, x);
    }
    forall g: nat, j: nat, l: nat, x: nat | Holds(t', g, j, x) && Holds(t', g, l, x) && t'[x].kind == Dir
      ensures j == l
    {
      UnlinkNames(t, d, k, i, g, j, x);
      UnlinkNames(t, d, k, i, g, l, x);
    }
  }

  lemma UnlinkKeeps(t: Table, d: nat, k: nat, i: nat)
    requires CanUnlink(t, d, k, i)
    ensures Inv(Unlinked(t, d, k, i))
  {
    UnlinkCounts(t, d, k, i);
    UnlinkDirs(t, d, k, i);
    UnlinkTree(t, d, k, i);
  }

  // ---- rmdir ----

  ghost predicate Empty(es: seq<Entry>) { forall k :: 2 <= k < |es| ==> es[k].inum == 0 }

  /** An empty directory loses its only name, and its parent the link from "..". */
  function Removed(t: Table, d: nat, k: nat, i: nat): Table
    requires d < |t| && i < |t| && d != i && k < |t[d].ents| && t[d].nlink > 0 && t[i].nlink > 0
  {
    var t1 := PutEntry(t, d, k, Gone());
    var t2 := SetLinks(t1, d, t[d].nlink - 1);
    SetLinks(t2, i, t[i].nlink - 1)
  }

  lemma RemoveDead(t: Table, d: nat, k: nat, i: nat)
    requires CanRemove(t, d, k, i) && d != i && t[d].nlink >= 2 && t[i].nlink == 1
    ensures DeadOk(Removed(t, d, k, i))
  {
    assert DirOk(t, i) && TargetOk(t, d, k, i);
  }

  ghost predicate CanRemove(t: Table, d: nat, k: nat, i: nat) {
    Inv(t) && Holds(t, d, k, i) && i < |t| && d < |t| && t[i].kind == Dir && Empty(t[i].ents)
  }

  /** An empty directory has one link: its name in its parent. */
  lemma OnlyName(t: Table, d: nat, k: nat, i: nat, g: nat, j: nat)
    requires CanRemove(t, d, k, i) && Names(t, g, j, i)
    ensures g == d && j == k
  {
    assert DirOk(t, g) && TargetOk(t, d, k, i);
    if j >= 2 {
      assert Holds(t, g, j, i) && TargetOk(t, g, j, i);
    }
  }

  lemma OneLink(t: Table, d: nat, k: nat, i: nat)
    requires CanRemove(t, d, k, i)
    ensures t[i].nlink == 1 && d != i
  {
    HoldsCounts(t, d, k, i);
    assert TargetOk(t, d, k, i) && DirOk(t, i);
    forall g: nat, j: nat ensures (g, j) in Refs(t, i) <==> (g, j) in {(d, k)} {
      InRefs(t, i, g, j);
      if Names(t, g, j, i) { OnlyName(t, d, k, i, g, j); }
    }
    assert Refs(t, i) == {(d, k)};
  }

  /** The parent has its own name besides the ".." of the directory. */
  lemma ParentStays(t: Table, d: nat, k: nat, i: nat)
    requires CanRemove(t, d, k, i)
    ensures t[d].nlink >= 2 && Names(t, i, 1, d)
  {
    OneLink(t, d, k, i);
    assert TargetOk(t, d, k, i) && DirOk(t, i) && DirOk(t, d);
    assert t[d].nlink == |Refs(t, d)|;
    InRefs(t, d, i, 1);
    var p: nat, j: nat := ROOT, 1;
    if d != ROOT {
      p := t[d].ents[1].inum;
      j :| Holds(t, p, j, d);
      HoldsCounts(t, p, j, d);
    }
    InRefs(t, d, p, j);
    assert {(i, 1), (p, j)} <= Refs(t, d);
    assert |{(i, 1), (p, j)}| == 2;
    Smaller({(i, 1), (p, j)}, Refs(t, d));
  }

  lemma Smaller(a: set<(nat, nat)>, b: set<(nat, nat)>)
    requires a <= b
    ensures |a| <= |b|
  {
    assert b == a + (b - a);
  }

  lemma RemoveNames(t: Table, d: nat, k: nat, i: nat, g: nat, j: nat, x: nat)
    requires CanRemove(t, d, k, i) && d != i && t[d].nlink >= 2 && t[i].nlink == 1 && x != 0
    ensures var t' := Removed(t, d, k, i);
            && (Names(t', g, j, x) <==> Names(t, g, j, x) && !(g == d && j == k) && g != i)
            && (Holds(t', g, j, x) <==> Holds(t, g, j, x) && !(g == d && j == k) && g != i)
  {
  }

  /** The directory itself names nothing but its parent. */
  lemma NamesParentOnly(t: Table, d: nat, k: nat, i: nat, j: nat, x: nat)
    requires CanRemove(t, d, k, i) && Names(t, i, j, x) && x != 0
    ensures j == 1 && x == d
  {
    assert DirOk(t, i) && TargetOk(t, d, k, i);
  }

  lemma RemoveCounts(t: Table, d: nat, k: nat, i: nat)
    requires CanRemove(t, d, k, i) && d != i && t[d].nlink >= 2 && t[i].nlink == 1 && Names(t, i, 1, d)
    ensures Counts(Removed(t, d, k, i))
  {
    var t' := Removed(t, d, k, i);
    HoldsCounts(t, d, k, i);
    forall x: nat | 0 < x < |t'| ensures t'[x].nlink == |Refs(t', x)| {
      assert t[x].nlink == |Refs(t, x)|;
      forall g: nat, j: nat
        ensures Names(t, g, j, x) <==>
                  Names(t', g, j, x) || (g == d && j == k && x == i) || (g == i && j == 1 && x == d)
      {
        RemoveNames(t, d, k, i, g, j, x);
        if g == i && Names(t, i, j, x) { NamesParentOnly(t, d, k, i, j, x); }
      }
      if x == i {
        RemoveNames(t, d, k, i, d, k, i);
        RefsMore(t', t, x, d, k);
      } else if x == d {
        RemoveNames(t, d, k, i, i, 1, d);
        RefsMore(t', t, x, i, 1);
      } else {
        RefsSame(t, t', x);
      }
    }
  }

  lemma RemoveDirs(t: Table, d: nat, k: nat, i: nat)
    requires CanRemove(t, d, k, i) && d != i && t[d].nlink >= 2 && t[i].nlink == 1
    ensures DirsOk(Removed(t, d, k, i))
  {
    var t' := Removed(t, d, k, i);
    forall g: nat | Live(t', g) ensures DirOk(t', g) {
      assert Live(t, g) && g != i && DirOk(t, g);
      if g == d {
        UniqueLess(t[d].ents, d, k);
      }
      if g != ROOT {
        var p := t[g].ents[1].inum;
        forall j: nat | Holds(t, p, j, g) ensures Holds(t', p, j, g) {
          RemoveNames(t, d, k, i, p, j, g);
        }
        StillHeld(t, t', p, g);
      }
    }
  }

  lemma RemoveTree(t: Table, d: nat, k: nat, i: nat)
    requires CanRemove(t, d, k, i) && d != i && t[d].nlink >= 2 && t[i].nlink == 1
    ensures TreeOk(Removed(t, d, k, i))
  {
    var t' := Removed(t, d, k, i);
    assert DirOk(t, d) && TargetOk(t, d, k, i);
    forall g: nat, j: nat, x: nat | Holds(t', g, j, x) ensures TargetOk(t', g, j, x) {
      RemoveNames(t, d, k, i, g, j, x);
      assert TargetOk(t, g, j, x);
      if x == i {
        HoldsCounts(t, g, j, x);
        OnlyName(t, d, k, i, g, j);
      }
    }
    forall g: nat, j: nat, l: nat, x: nat | Holds(t', g, j, x) && Holds(t', g, l, x) && t'[x].kind == Dir
      ensures j == l
    {
      RemoveNames(t, d, k, i, g, j, x);
      RemoveNames(t, d, k, i, g, l, x);
    }
  }

  lemma RemoveKeeps(t: Table, d: nat, k: nat, i: nat)
    requires CanRemove(t, d, k, i)
    ensures d != i && t[d].nlink >= 2 && t[i].nlink == 1 && Inv(Removed(t, d, k, i))
  {
    OneLink(t, d, k, i);
    ParentStays(t, d, k, i);
    RemoveCounts(t, d, k, i);
    RemoveDirs(t, d, k, i);
    RemoveTree(t, d, k, i);
    RemoveDead(t, d, k, i);
  }

  // ---- The code ----

  /** The entry that `dirlookup` finds. */
  ghost predicate IsEntry(es: seq<Entry>, name: string, k: nat) {
    k < |es| && es[k].inum != 0 && es[k].name == name
  }

  /** The slot that `dirlink` finds. */
  ghost predicate FirstEmpty(es: seq<Entry>, k: nat) {
    k <= |es| && (k < |es| ==> es[k].inum == 0) && forall j :: 0 <= j < k ==> es[j].inum != 0
  }

  /** There is a slot for one more entry. */
  ghost predicate Room(es: seq<Entry>, full: bool) { !full || exists k :: 0 <= k < |es| && es[k].inum == 0 }

  /** A new inode and its name can be made. */
  ghost predicate CanCreate(t: Table, d: nat, kind: Kind, full1: bool, full2: bool, full3: bool) {
    && d < |t| && (exists i :: 1 <= i < |t| && t[i].kind == Free)
    && (kind == Dir ==> !full1 && !full2) && Room(t[d].ents, full3)
  }

  /** The first free inode `i` has become the file, device or directory `name` in `d`. */
  ghost predicate Created(t: Table, d: nat, k: nat, name: string, kind: Kind, i: nat, t': Table) {
    && 1 < i < |t| && t[i].kind == Free && (forall j :: 1 <= j < i ==> t[j].kind != Free)
    && d < |t| && d != i && FirstEmpty(t[d].ents, k)
    && t' == if kind == Dir then Made(t[i := Inode(Dir, 0, [Entry(i, "."), Entry(d, "..")])], d, k, name, i)
             else Linked(t[i := Inode(kind, 0, [])], d, k, name, i)
  }

  ghost predicate Removable(t: Table, i: nat) { i < |t| && (t[i].kind == Dir ==> Empty(t[i].ents)) }

  /** The entry is gone, and the links that went with it. */
  ghost predicate UnlinkedTo(t: Table, d: nat, k: nat, i: nat, t': Table) {
    && d < |t| && i < |t| && k < |t[d].ents| && t[i].nlink > 0
    && if t[i].kind == Dir then d != i && t[d].nlink > 0 && t' == Removed(t, d, k, i) else t' == Unlinked(t, d, k, i)
  }

  /** What an entry names; a directory in the case of "." and "..". */
  lemma EntryTarget(t: Table, d: nat, k: nat)
    requires Inv(t) && d < |t| && t[d].kind == Dir && k < |t[d].ents| && t[d].ents[k].inum != 0
    ensures 0 < t[d].ents[k].inum < |t| && (Live(t, d) ==> t[t[d].ents[k].inum].kind != Free)
  {
    if Live(t, d) {
      assert DirOk(t, d);
      if k >= 2 {
        assert Holds(t, d, k, t[d].ents[k].inum);
      }
    }
  }

  /** A name that `dirlookup` did not find can be added to a directory that is in use. */
  lemma NotFound(t: Table, d: nat, name: string)
    requires Inv(t) && d < |t| && forall j :: 0 <= j < |t[d].ents| ==> !IsEntry(t[d].ents, name, j)
    ensures Live(t, d) ==> Fresh(t[d].ents, name)
  {
    if Live(t, d) {
      assert DirOk(t, d);
      assert !IsEntry(t[d].ents, name, 0) && !IsEntry(t[d].ents, name, 1);
      forall j | 0 <= j < |t[d].ents| && t[d].ents[j].inum != 0 ensures t[d].ents[j].name != name {
        assert !IsEntry(t[d].ents, name, j);
      }
    }
  }

  lemma FirstSlot(t: Table, d: nat, k: nat)
    requires Inv(t) && Live(t, d) && FirstEmpty(t[d].ents, k)
    ensures Slot(t[d].ents, k)
  {
    assert DirOk(t, d);
  }

  /** A directory made in a removed one: the removed one has a link again, but no name. */
  lemma MakeInRemoved(t: Table, d: nat, k: nat, name: string, i: nat)
    requires Inv(t) && d < |t| && t[d].kind == Dir && !Live(t, d) && k <= |t[d].ents|
    requires 1 < i < |t| && i != d && t[i] == Inode(Dir, 0, [Entry(i, "."), Entry(d, "..")])
    ensures !Inv(Made(t, d, k, name, i))
  {
    var t' := Made(t, d, k, name, i);
    NoRefs(t, d);
    forall p: nat, j: nat ensures Holds(t', p, j, d) ==> Holds(t, p, j, d) || (p == d && !Dots(t'[d].ents, d)) {
    }
    assert Live(t', d) && d != ROOT && !DirOk(t', d);
  }

  /** `create` keeps the invariant exactly when the directory has not been removed. */
  lemma CreateExact(t: Table, d: nat, k: nat, name: string, kind: Kind, i: nat, t': Table)
    requires Inv(t) && d < |t| && t[d].kind == Dir && kind != Free && Created(t, d, k, name, kind, i, t')
    requires Live(t, d) ==> Fresh(t[d].ents, name)
    ensures Inv(t') <==> Live(t, d)
  {
    if Live(t, d) { FirstSlot(t, d, k); }
    if kind == Dir {
      var t1 := t[i := Inode(Dir, 0, [Entry(i, "."), Entry(d, "..")])];
      ReplaceKeeps(t, i, t1[i]);
      if Live(t, d) {
        MakeKeeps(t1, d, k, name, i);
      } else {
        MakeInRemoved(t1, d, k, name, i);
      }
    } else {
      ReplaceKeeps(t, i, Inode(kind, 0, []));
      LinkExact(t[i := Inode(kind, 0, [])], d, k, name, i);
    }
  }

  class Namespace {
    var t: Table

    ghost predicate Valid()
      reads this
    {
      Inv(t)
    }

    /** The root directory as mkfs makes it, and `n` free inodes. */
    constructor (n: nat)
      ensures Valid() && |t| == n + 2 && Alone(t)
    {
      t := [Inode(Free, 0, []), Inode(Dir, 1, [Entry(ROOT, "."), Entry(ROOT, "..")])] + seq(n, i => Inode(Free, 0, []));
      new;
      RootAlone(t);
    }

    /** `dirlookup` */
    method Dirlookup(d: nat, name: string) returns (found: bool, k: nat)
      requires d < |t|
      ensures found ==> IsEntry(t[d].ents, name, k)
      ensures !found ==> forall j :: 0 <= j < |t[d].ents| ==> !IsEntry(t[d].ents, name, j)
    {
      k := 0;
      while k < |t[d].ents|
        invariant k <= |t[d].ents| && forall j :: 0 <= j < k ==> !IsEntry(t[d].ents, name, j)
      {
        if t[d].ents[k].inum != 0 && t[d].ents[k].name == name {
          return true, k;
        }
        k := k + 1;
      }
      return false, k;
    }

    /** `dirlink`; `full` says that the disk has no block for a longer directory. */
    method Dirlink(d: nat, name: string, i: nat, full: bool) returns (ok: bool, k: nat)
      requires d < |t|
      modifies this
      ensures FirstEmpty(old(t[d].ents), k)
      ensures ok <==>
                (forall j :: 0 <= j < |old(t[d].ents)| ==> !IsEntry(old(t[d].ents), name, j))
                    && !(full && k == |old(t[d].ents)|)
      ensures t == if ok then PutEntry(old(t), d, k, Entry(i, name)) else old(t)
    {
      var present, j := Dirlookup(d, name);
      k := 0;
      while k < |t[d].ents| && t[d].ents[k].inum != 0
        invariant k <= |t[d].ents| && t == old(t) && forall j :: 0 <= j < k ==> t[d].ents[j].inum != 0
      {
        k := k + 1;
      }
      if present || (full && k == |t[d].ents|) {
        return false, k;
      }
      t := t[d := Inode(t[d].kind, t[d].nlink, if k < |t[d].ents| then t[d].ents[k := Entry(i, name)]
          else t[d].ents + [Entry(i, name)])];
      return true, k;
    }

    /** `ialloc`: the first free inode after 0, with no links yet. */
    method Ialloc(kind: Kind) returns (ok: bool, i: nat)
      requires Valid() && kind != Free
      modifies this
      ensures Valid()
      ensures ok ==> 1 < i < |old(t)| && old(t)[i].kind == Free && t == old(t)[i := Inode(kind, 0, [])]
      ensures ok ==> forall j :: 1 <= j < i ==> old(t)[j].kind != Free
      ensures !ok ==> t == old(t) && forall j :: 1 <= j < |t| ==> t[j].kind != Free
    {
      i := 1;
      while i < |t|
        invariant 1 <= i <= |t| && t == old(t) && forall j :: 1 <= j < i ==> t[j].kind != Free
      {
        if t[i].kind == Free {
          ReplaceKeeps(t, i, Inode(kind, 0, []));
          t := t[i := Inode(kind, 0, [])];
          return true, i;
        }
        i := i + 1;
      }
      return false, i;
    }

    /** `isdirempty` */
    method IsDirEmpty(d: nat) returns (empty: bool)
      requires d < |t| && |t[d].ents| >= 2
      ensures empty == Empty(t[d].ents)
    {
      var k := 2;
      while k < |t[d].ents|
        invariant 2 <= k <= |t[d].ents| && forall j :: 2 <= j < k ==> t[d].ents[j].inum == 0
      {
        if t[d].ents[k].inum != 0 {
          return false;
        }
        k := k + 1;
      }
      return true;
    }

    /** `iput` of an inode with `ref` references in memory: freed if this is the last one and it has no links. */
    method Iput(i: nat, ref: nat) returns (freed: bool)
      requires Valid() && 1 < i < |t|
      modifies this
      ensures Valid() && freed == (ref == 1 && old(t[i].nlink) == 0)
      ensures t == if freed then old(t)[i := Inode(Free, 0, [])] else old(t)
    {
      freed := ref == 1 && t[i].nlink == 0;
      if freed {
        ReplaceKeeps(t, i, Inode(Free, 0, []));
        t := t[i := Inode(Free, 0, [])];
      }
    }

    /** `create` of a file or device with a name that is not there: the first free inode gets a link and an
        entry; a failure leaves everything as it was. */
    method CreateFile(d: nat, name: string, kind: Kind, full: bool) returns (ok: bool, i: nat, k: nat)
      requires Valid() && d < |t| && t[d].kind == Dir && (kind == File || kind == Device)
      requires forall j :: 0 <= j < |t[d].ents| ==> !IsEntry(t[d].ents, name, j)
      modifies this
      ensures |t| == |old(t)| && (Valid() <==> !ok || Live(old(t), d))
      ensures ok <==> CanCreate(old(t), d, kind, false, false, full)
      ensures ok ==> Created(old(t), d, k, name, kind, i, t)
      ensures !ok ==> t == old(t)
    {
      ghost var t0 := t;
      NotFound(t, d, name);
      k := 0;
      ok, i := Ialloc(kind);
      if !ok {
        return;
      }
      ghost var t1 := t;
      t := t[i := Inode(kind, 1, [])];
      ok, k := Dirlink(d, name, i, full);
      if ok {
        assert t == Linked(t1, d, k, name, i);
        CreateExact(t0, d, k, name, kind, i, t);
      } else {
        t := t[i := Inode(kind, 0, [])];
        assert t == t1;
        var freed := Iput(i, 1);
        assert t == t0;
      }
    }

    /** The entries "." and ".." of a new directory. */
    method MakeDots(i: nat, d: nat, full1: bool, full2: bool) returns (ok: bool)
      requires i < |t| && t[i] == Inode(Dir, 1, []) && i != 0 && d < |t|
      modifies this
      ensures |t| == |old(t)| && OnlyDots(t[i].ents, |t|)
      ensures |t| == |old(t)| && t == old(t)[i := t[i]] && t[i].kind == Dir && t[i].nlink == 1
      ensures ok <==> !full1 && !full2
      ensures ok ==> t[i].ents == [Entry(i, "."), Entry(d, "..")]
    {
      var k;
      ok, k := Dirlink(i, ".", i, full1);
      if ok {
        ok, k := Dirlink(i, "..", d, full2);
      }
    }

    /** `create` of a directory: also "." and "..", and a link to the parent. */
    method CreateDir(d: nat, name: string, full1: bool, full2: bool, full3: bool) returns (ok: bool, i: nat, k: nat)
      requires Valid() && d < |t| && t[d].kind == Dir && forall j :: 0 <= j < |t[d].ents| ==>
                 !IsEntry(t[d].ents, name, j)
      modifies this
      ensures |t| == |old(t)| && (Valid() <==> !ok || Live(old(t), d))
      ensures ok <==> CanCreate(old(t), d, Dir, full1, full2, full3)
      ensures ok ==> Created(old(t), d, k, name, Dir, i, t)
      ensures !ok ==> t == old(t)
    {
      ghost var t0 := t;
      NotFound(t, d, name);
      k := 0;
      ok, i := Ialloc(Dir);
      if !ok {
        return;
      }
      t := t[i := Inode(Dir, 1, [])];
      ok := MakeDots(i, d, full1, full2);
      if ok {
        ok, k := Dirlink(d, name, i, full3);
        if ok {
          t := t[d := Inode(t[d].kind, t[d].nlink + 1, t[d].ents)];
          assert t == Made(t0[i := Inode(Dir, 0, [Entry(i, "."), Entry(d, "..")])], d, k, name, i);
          CreateExact(t0, d, k, name, Dir, i, t);
          return;
        }
      }
      t := t[i := Inode(Dir, 0, t[i].ents)];
      assert t == t0[i := t[i]];
      ReplaceKeeps(t0, i, t[i]);
      var freed := Iput(i, 1);
      assert t == t0;
    }

    /** `create`: the inode that has the name already, if that is acceptable, or a new one.  `found` says which.
        Where the inode has been freed, the kernel panics; that happens only in a removed directory. */
    method Create(d: nat, name: string, kind: Kind, full1: bool, full2: bool, full3: bool)
      returns (ok: bool, i: nat, panics: bool, ghost k: nat, ghost found: bool)
      requires Valid() && d < |t| && t[d].kind == Dir && kind != Free
      modifies this
      ensures |t| == |old(t)| && (Valid() <==> !ok || found || Live(old(t), d))
      ensures found <==> exists j :: IsEntry(old(t[d].ents), name, j)
      ensures !ok || found ==> t == old(t)
      ensures found ==> IsEntry(t[d].ents, name, k) && i == t[d].ents[k].inum < |t|
      ensures panics <==> found && t[i].kind == Free
      ensures panics ==> !ok && !Live(old(t), d)
      ensures found ==> (ok <==> kind == File && (t[i].kind == File || t[i].kind == Device))
      ensures !found ==> (ok <==> CanCreate(old(t), d, kind, full1, full2, full3))
      ensures !found && ok ==> Created(old(t), d, k, name, kind, i, t)
    {
      var found', k' := Dirlookup(d, name);
      found, k, panics := found', k', false;
      if found' {
        i := t[d].ents[k'].inum;
        EntryTarget(t, d, k');
        panics := t[i].kind == Free;
        ok := kind == File && (t[i].kind == File || t[i].kind == Device);
        return;
      }
      if kind == Dir {
        ok, i, k := CreateDir(d, name, full1, full2, full3);
      } else {
        ok, i, k := CreateFile(d, name, kind, full3);
      }
    }

    /** `sys_link` once `old` has been resolved to `i`; `found` says whether the parent of the new name has
        been, to `d`. */
    method Link(i: nat, found: bool, d: nat, name: string, full: bool) returns (ok: bool, ghost k: nat)
      requires Valid() && 0 < i < |t| && t[i].kind != Free && (found ==> d < |t| && t[d].kind == Dir)
      modifies this
      ensures |t| == |old(t)| && (Valid() <==> !ok || Live(old(t), d))
      ensures ok <==>
                old(t)[i].kind != Dir && found && !(exists j :: IsEntry(old(t[d].ents), name, j))
                    && Room(old(t[d].ents), full)
      ensures !ok ==> t == old(t)
      ensures ok ==> FirstEmpty(old(t[d].ents), k) && t == Linked(old(t), d, k, name, i)
    {
      k := 0;
      if t[i].kind == Dir {
        return false, k;
      }
      ghost var t0 := t;
      t := t[i := Inode(t[i].kind, t[i].nlink + 1, t[i].ents)];
      ok := false;
      if found {
        var k';
        ok, k' := Dirlink(d, name, i, full);
        k := k';
        if ok {
          NotFound(t0, d, name);
          if Live(t0, d) { FirstSlot(t0, d, k); }
          LinkExact(t0, d, k, name, i);
          assert t == Linked(t0, d, k, name, i);
          return;
        }
      }
      t := t[i := Inode(t[i].kind, t[i].nlink - 1, t[i].ents)];
      assert t == t0;
    }

    /** `sys_unlink` in directory `d`; `ok` is false for "." and "..", a name that is not there and a directory
        that is not empty. */
    method Unlink(d: nat, name: string) returns (ok: bool, ghost k: nat)
      requires Valid() && d < |t| && t[d].kind == Dir
      modifies this
      ensures Valid() && |t| == |old(t)|
      ensures ok <==>
                name != "." && name != ".." && IsEntry(old(t[d].ents), name, k)
                    && Removable(old(t), old(t[d].ents)[k].inum)
      ensures !ok && name != "." && name != ".." ==>
                IsEntry(old(t[d].ents), name, k) || forall j :: 0 <= j < |old(t[d].ents)| ==>
                    !IsEntry(old(t[d].ents), name, j)
      ensures !ok ==> t == old(t)
      ensures ok ==> UnlinkedTo(old(t), d, k, old(t[d].ents)[k].inum, t)
      ensures ok ==> forall j :: 0 <= j < |t[d].ents| ==> !IsEntry(t[d].ents, name, j)
    {
      k := 0;
      if name == "." || name == ".." {
        return false, k;
      }
      var found, k' := Dirlookup(d, name);
      k := k';
      if !found {
        return false, k;
      }
      assert Live(t, d) && DirOk(t, d);
      var i := t[d].ents[k'].inum;
      ghost var t0 := t;
      assert Holds(t, d, k, i);
      HoldsCounts(t, d, k, i);
      OnlyOne(t[d].ents, t[d].ents[k := Gone()], name, k);
      if t[i].kind == Dir {
        assert TargetOk(t, d, k, i);
        var empty := IsDirEmpty(i);
        if !empty {
          return false, k;
        }
        RemoveKeeps(t, d, k, i);
        t := t[d := Inode(t[d].kind, t[d].nlink, t[d].ents[k' := Entry(0, "")])];
        t := t[d := Inode(t[d].kind, t[d].nlink - 1, t[d].ents)];
        t := t[i := Inode(t[i].kind, t[i].nlink - 1, t[i].ents)];
        assert t == Removed(t0, d, k, i);
      } else {
        UnlinkKeeps(t, d, k, i);
        t := t[d := Inode(t[d].kind, t[d].nlink, t[d].ents[k' := Entry(0, "")])];
        t := t[i := Inode(t[i].kind, t[i].nlink - 1, t[i].ents)];
        assert t == Unlinked(t0, d, k, i);
      }
      return true, k;
    }
  }

  /** Names are unique, so the name is gone with its entry. */
  lemma OnlyOne(es: seq<Entry>, es': seq<Entry>, name: string, k: nat)
    requires Unique(es) && IsEntry(es, name, k) && es' == es[k := Gone()]
    ensures forall j :: 0 <= j < |es'| ==> !IsEntry(es', name, j)
  {
  }

  /** A directory is made, a file beside it, and the directory is removed while somebody is still in it. */
  method RemovedInUse() returns (ns: Namespace, d: nat, f: nat)
    ensures fresh(ns) && ns.Valid() && d < |ns.t| && ns.t[d].kind == Dir && !Live(ns.t, d)
            && ns.t[d].ents == [Entry(d, "."), Entry(ROOT, "..")]
    ensures 0 < f < |ns.t| && ns.t[f] == Inode(File, 1, []) && exists i :: 1 <= i < |ns.t| && ns.t[i].kind == Free
  {
    ns := new Namespace(3);
    assert ns.t[2].kind == Free && ns.t[3].kind == Free && ns.t[4].kind == Free;
    assert ns.t[ROOT].ents == [Entry(ROOT, "."), Entry(ROOT, "..")];
    var ok, k, gone;
    ok, d, k := ns.CreateDir(ROOT, "d", false, false, false);
    assert ok && d == 2 && k == 2 && ns.t[ROOT].ents == [Entry(ROOT, "."), Entry(ROOT, ".."), Entry(2, "d")];
    ok, f, k := ns.CreateFile(ROOT, "f", File, false);
    assert ok && f == 3 && ns.t[ROOT].ents == [Entry(ROOT, "."), Entry(ROOT, ".."), Entry(2, "d"), Entry(3, "f")];
    assert IsEntry(ns.t[ROOT].ents, "d", 2);
    ghost var j;
    gone, j := ns.Unlink(ROOT, "d");
    assert gone && j == 2;
    assert ns.t[4].kind == Free;
  }

  /** A link into that directory is one the count does not have. */
  method LinkIntoRemoved() returns (ns: Namespace)
    ensures fresh(ns) && !ns.Valid()
  {
    var d, f;
    ns, d, f := RemovedInUse();
    ghost var k;
    var ok;
    ok, k := ns.Link(f, true, d, "g", false);
  }

  /** So is a file made there. */
  method CreateInRemoved() returns (ns: Namespace)
    ensures fresh(ns) && !ns.Valid()
  {
    var d, f, ok, i, panics;
    ns, d, f := RemovedInUse();
    ghost var k, found;
    ok, i, panics, k, found := ns.Create(d, "g", File, false, false, false);
  }

  predicate Alone(t: Table) {
    && |t| >= 2 && t[0] == Inode(Free, 0, []) && t[1] == Inode(Dir, 1, [Entry(ROOT, "."), Entry(ROOT, "..")])
    && forall i :: 2 <= i < |t| ==> t[i] == Inode(Free, 0, [])
  }

  lemma AloneCounts(t: Table, i: nat)
    requires Alone(t) && 0 < i < |t|
    ensures t[i].nlink == |Refs(t, i)|
  {
    forall d: nat, k: nat ensures (d, k) in Refs(t, i) <==> i == ROOT && d == ROOT && k == 1 {
      InRefs(t, i, d, k);
    }
    assert Refs(t, i) == if i == ROOT then {(ROOT, 1)} else {};
  }

  lemma RootAlone(t: Table)
    requires Alone(t)
    ensures Inv(t)
  {
    forall i: nat | 0 < i < |t| ensures t[i].nlink == |Refs(t, i)| {
      AloneCounts(t, i);
    }
    forall d: nat | Live(t, d) ensures DirOk(t, d) {
    }
  }
}
