/** The layout of MDF files: blocks that share children and may link in cycles, and the three
    traversals that reset them, give them addresses and write them. All three follow one depth-first
    order, whatever mark each uses to recognise a block it has already met. */
module MdfLayout {
  /** A block's links in the order of its record, and in the order the traversals take them. */
  datatype Shape = Shape(size: nat, links: seq<Block?>, children: seq<Block?>)

  /** The blocks of a file with their sizes and links, as a value. */
  type Graph = map<Block, Shape>

  ghost predicate SameBlocks(x: Shape) {
    (forall b :: b in x.links ==> b in x.children) && forall b :: b in x.children ==> b in x.links
  }

  ghost predicate Closed(g: Graph) {
    (forall b, i :: b in g && 0 <= i < |g[b].children| && g[b].children[i] != null ==> g[b].children[i] in g) &&
    (forall b, i :: b in g && 0 <= i < |g[b].links| && g[b].links[i] != null ==> g[b].links[i] in g) &&
    forall b :: b in g ==> SameBlocks(g[b])
  }

  function Members(order: seq<Block>): set<Block> {
    set b | b in order
  }

  // ----- the order -----

  ghost predicate Kids(g: Graph, kids: seq<Block?>) {
    forall i :: 0 <= i < |kids| && kids[i] != null ==> kids[i] in g
  }

  /** The blocks met from b, b first, when those in done count as met already. */
  ghost function Visit(g: Graph, b: Block, done: set<Block>): (order: seq<Block>)
    requires Closed(g) && b in g && b !in done
    ensures |order| > 0 && order[0] == b
    decreases g.Keys - done, 0, 0
  {
    [b] + VisitAll(g, g[b].children, done + {b})
  }

  ghost function VisitAll(g: Graph, kids: seq<Block?>, done: set<Block>): seq<Block>
    requires Closed(g) && Kids(g, kids)
    decreases g.Keys - done, 1, |kids|
  {
    if kids == [] then []
    else if kids[0] == null || kids[0] in done then VisitAll(g, kids[1..], done)
    else
      var first := Visit(g, kids[0], done);
      assert kids[0] in Members(first);
      first + VisitAll(g, kids[1..], done + Members(first))
  }

  /** Where a traversal's loop starts, with the block itself met. */
  lemma FirstKid(g: Graph, b: Block, done: set<Block>)
    requires Closed(g) && b in g && b !in done
    ensures Members([b]) == {b}
    ensures Visit(g, b, done) == [b] + VisitAll(g, g[b].children[0..], done + Members([b]))
  {
    assert Members([b]) == {b};
    assert g[b].children[0..] == g[b].children;
  }

  lemma KidsAreIn(g: Graph, b: Block)
    requires Closed(g) && b in g
    ensures Kids(g, g[b].children)
  {
  }

  lemma NoMoreKids(g: Graph, done: set<Block>)
    requires Closed(g)
    ensures VisitAll(g, [], done) == []
  {
  }

  /** One round of a traversal's loop over the children. */
  lemma NextKid(g: Graph, kids: seq<Block?>, i: nat, done: set<Block>, met: seq<Block>)
    requires Closed(g) && Kids(g, kids) && i < |kids|
    ensures kids[i] == null || kids[i] in done + Members(met) ==>
              VisitAll(g, kids[i..], done + Members(met)) == VisitAll(g, kids[i + 1..], done + Members(met))
    ensures kids[i] != null && kids[i] !in done + Members(met) ==>
              var more := met + Visit(g, kids[i], done + Members(met));
              Members(more) == Members(met) + Members(Visit(g, kids[i], done + Members(met))) &&
              met + VisitAll(g, kids[i..], done + Members(met)) ==
              more + VisitAll(g, kids[i + 1..], done + Members(more))
  {
    assert kids[i..][0] == kids[i] && kids[i..][1..] == kids[i + 1..];
    if kids[i] != null && kids[i] !in done + Members(met) {
      var first := Visit(g, kids[i], done + Members(met));
      assert Members(met + first) == Members(met) + Members(first);
      assert done + Members(met) + Members(first) == done + Members(met + first);
    }
  }

  predicate Distinct(order: seq<Block>) {
    forall i, j :: 0 <= i < j < |order| ==> order[i] != order[j]
  }

  /** Nothing is met twice, and nothing that had been met before. */
  lemma {:induction false} VisitIsNew(g: Graph, b: Block, done: set<Block>)
    requires Closed(g) && b in g && b !in done
    ensures Distinct(Visit(g, b, done))
    ensures Members(Visit(g, b, done)) <= g.Keys && Members(Visit(g, b, done)) !! done
    decreases g.Keys - done, 0, 0
  {
    VisitAllIsNew(g, g[b].children, done + {b});
  }

  lemma {:induction false} VisitAllIsNew(g: Graph, kids: seq<Block?>, done: set<Block>)
    requires Closed(g) && Kids(g, kids)
    ensures Distinct(VisitAll(g, kids, done))
    ensures Members(VisitAll(g, kids, done)) <= g.Keys && Members(VisitAll(g, kids, done)) !! done
    decreases g.Keys - done, 1, |kids|
  {
    if kids != [] {
      if kids[0] == null || kids[0] in done {
        VisitAllIsNew(g, kids[1..], done);
      } else {
        var first := Visit(g, kids[0], done);
        VisitIsNew(g, kids[0], done);
        assert kids[0] in Members(first);
        VisitAllIsNew(g, kids[1..], done + Members(first));
        DistinctAppend(first, VisitAll(g, kids[1..], done + Members(first)));
      }
    }
  }

  lemma DistinctAppend(a: seq<Block>, b: seq<Block>)
    requires Distinct(a) && Distinct(b) && Members(a) !! Members(b)
    ensures Distinct(a + b) && Members(a + b) == Members(a) + Members(b)
  {
    forall i, j | 0 <= i < j < |a + b|
      ensures (a + b)[i] != (a + b)[j]
    {
      if i < |a| <= j {
        assert a[i] in Members(a) && b[j - |a|] in Members(b);
      }
    }
  }

  /** No block of s has a child outside s and done. */
  ghost predicate Enclosed(g: Graph, s: set<Block>, done: set<Block>) {
    forall b, i :: b in s && b in g && 0 <= i < |g[b].children| && g[b].children[i] != null ==>
      g[b].children[i] in s || g[b].children[i] in done
  }

  /** Every child of a block that is met has been met in the end. */
  lemma {:induction false} VisitEncloses(g: Graph, b: Block, done: set<Block>)
    requires Closed(g) && b in g && b !in done
    ensures Enclosed(g, Members(Visit(g, b, done)), done)
    decreases g.Keys - done, 0, 0
  {
    var rest := VisitAll(g, g[b].children, done + {b});
    VisitAllEncloses(g, g[b].children, done + {b});
    assert Members([b] + rest) == {b} + Members(rest);
  }

  lemma {:induction false} VisitAllEncloses(g: Graph, kids: seq<Block?>, done: set<Block>)
    requires Closed(g) && Kids(g, kids)
    ensures Enclosed(g, Members(VisitAll(g, kids, done)), done)
    ensures forall i :: 0 <= i < |kids| && kids[i] != null ==>
              kids[i] in Members(VisitAll(g, kids, done)) || kids[i] in done
    decreases g.Keys - done, 1, |kids|
  {
    if kids != [] {
      if kids[0] == null || kids[0] in done {
        VisitAllEncloses(g, kids[1..], done);
      } else {
        var first := Visit(g, kids[0], done);
        assert kids[0] in Members(first);
        VisitEncloses(g, kids[0], done);
        var rest := VisitAll(g, kids[1..], done + Members(first));
        VisitAllEncloses(g, kids[1..], done + Members(first));
        assert Members(first + rest) == Members(first) + Members(rest);
      }
    }
  }

  /** Only blocks that must be met are: any set with b in it that no link leaves, except into done,
      contains them all. */
  lemma {:induction false} VisitIsLeast(g: Graph, b: Block, done: set<Block>, s: set<Block>)
    requires Closed(g) && b in g && b !in done && b in s && Enclosed(g, s, done)
    ensures Members(Visit(g, b, done)) <= s
    decreases g.Keys - done, 0, 0
  {
    VisitAllIsLeast(g, g[b].children, done + {b}, s);
  }

  lemma {:induction false} VisitAllIsLeast(g: Graph, kids: seq<Block?>, done: set<Block>, s: set<Block>)
    requires Closed(g) && Kids(g, kids) && Enclosed(g, s, done)
    requires forall i :: 0 <= i < |kids| && kids[i] != null ==> kids[i] in s || kids[i] in done
    ensures Members(VisitAll(g, kids, done)) <= s
    decreases g.Keys - done, 1, |kids|
  {
    if kids != [] {
      if kids[0] == null || kids[0] in done {
        VisitAllIsLeast(g, kids[1..], done, s);
      } else {
        var first := Visit(g, kids[0], done);
        assert kids[0] in Members(first);
        VisitIsLeast(g, kids[0], done, s);
        VisitAllIsLeast(g, kids[1..], done + Members(first), s);
      }
    }
  }

  /** What a root reaches: the blocks met from it when none had been met. */
  ghost function Reached(g: Graph, root: Block): set<Block>
    requires Closed(g) && root in g
  {
    Members(Visit(g, root, {}))
  }

  /** That is the least set that has the root in it and that no link leaves. */
  lemma ReachedIsLeastClosed(g: Graph, root: Block, s: set<Block>)
    requires Closed(g) && root in g && root in s && Enclosed(g, s, {})
    ensures root in Reached(g, root) && Reached(g, root) <= s && Enclosed(g, Reached(g, root), {})
  {
    VisitIsLeast(g, root, {}, s);
    VisitEncloses(g, root, {});
  }

  // ----- marks -----

  /** What resetting from the root meets: marked blocks, as it turns back at blocks that have no mark. */
  ghost function Cleared(g: Graph, root: Block, marked: set<Block>): set<Block>
    requires Closed(g) && root in g
  {
    if root in marked then Members(Visit(g, root, g.Keys - marked)) else {}
  }

  /** Resetting from the root would meet every marked block that the root reaches. */
  ghost predicate Clearable(g: Graph, root: Block, marked: set<Block>)
    requires Closed(g) && root in g
  {
    marked * Reached(g, root) <= Cleared(g, root, marked)
  }

  /** It would meet every marked block there is. */
  ghost predicate Covered(g: Graph, root: Block, marked: set<Block>)
    requires Closed(g) && root in g
  {
    marked <= Cleared(g, root, marked)
  }

  /** The same, said of paths: a set of blocks is met if and only if no set with the root in it that
      marked children cannot leave misses one of them. */
  lemma ClearedIff(g: Graph, root: Block, marked: set<Block>, wanted: set<Block>)
    requires Closed(g) && root in marked && marked <= g.Keys
    ensures wanted <= Cleared(g, root, marked) <==>
            forall s: set<Block> :: s <= g.Keys && root in s && Enclosed(g, s, g.Keys - marked) ==> wanted <= s
  {
    var done := g.Keys - marked;
    var met := Members(Visit(g, root, done));
    VisitEncloses(g, root, done);
    VisitIsNew(g, root, done);
    assert root in met;
    if wanted <= met {
      forall s: set<Block> | s <= g.Keys && root in s && Enclosed(g, s, done)
        ensures wanted <= s
      {
        VisitIsLeast(g, root, done, s);
      }
    } else {
      assert met <= g.Keys && Enclosed(g, met, done) && !(wanted <= met);
    }
  }

  /** more has the blocks of g and its links to marked blocks, except to lost ones, and perhaps others. */
  ghost predicate Extends(g: Graph, more: Graph, marked: set<Block>, lost: set<Block>) {
    g.Keys <= more.Keys &&
    forall b, i :: b in g && 0 <= i < |g[b].children| && g[b].children[i] in marked - lost ==>
      exists j :: 0 <= j < |more[b].children| && more[b].children[j] == g[b].children[i]
  }

  /** What a reset would have met, it still meets, except for what is lost. */
  lemma ClearedGrows(g: Graph, more: Graph, root: Block, marked: set<Block>, lost: set<Block>)
    requires Closed(g) && Closed(more) && root in g && marked <= g.Keys
    requires Extends(g, more, marked, lost) && Enclosed(g, lost, g.Keys - marked)
    ensures Cleared(g, root, marked) <= Cleared(more, root, marked) + lost
  {
    if root in marked {
      var met := Members(Visit(more, root, more.Keys - marked));
      VisitEncloses(more, root, more.Keys - marked);
      assert root in met;
      assert Enclosed(g, met + lost, g.Keys - marked);
      VisitIsLeast(g, root, g.Keys - marked, met + lost);
    }
  }

  /** Adding blocks and links, and giving up links to unmarked blocks, cannot hide a marked block from
      the next reset. */
  lemma CoveredGrows(g: Graph, more: Graph, root: Block, marked: set<Block>)
    requires Closed(g) && Closed(more) && Extends(g, more, marked, {}) && root in g && marked <= g.Keys
    requires Covered(g, root, marked)
    ensures Covered(more, root, marked)
  {
    hide Visit;
    ClearedGrows(g, more, root, marked, {});
  }

  /** Nor can giving up other links, if no marked block that is lost with them stays reached; and no
      marked block may come back into reach. */
  lemma ClearableGrows(g: Graph, more: Graph, root: Block, marked: set<Block>, lost: set<Block>)
    requires Closed(g) && Closed(more) && root in g && marked <= g.Keys
    requires Extends(g, more, marked, lost) && Enclosed(g, lost, g.Keys - marked)
    requires marked * lost !! Reached(more, root) && marked * Reached(more, root) <= Reached(g, root)
    requires Clearable(g, root, marked)
    ensures Clearable(more, root, marked)
  {
    hide Reached, Cleared, Enclosed;
    ClearedGrows(g, more, root, marked, lost);
    forall x | x in marked * Reached(more, root)
      ensures x in Cleared(more, root, marked)
    {
      assert x !in marked * lost;
      assert x in marked * Reached(g, root);
    }
  }

  /** What a root reaches after some blocks got links into a set that no link leaves. */
  lemma ReachedGrows(g: Graph, more: Graph, root: Block, extra: set<Block>)
    requires Closed(g) && Closed(more) && root in g && root in more && Enclosed(g, extra, {})
    requires forall b :: b in more && b in g ==> forall x :: x in more[b].children && x != null && x !in extra ==>
               x in g[b].children
    requires extra <= g.Keys
    ensures Reached(more, root) <= Reached(g, root) + extra
  {
    var s := Reached(g, root) + extra;
    VisitEncloses(g, root, {});
    VisitIsNew(g, root, {});
    assert root in Reached(g, root);
    forall b, i | b in s && b in more && 0 <= i < |more[b].children| && more[b].children[i] != null
      ensures more[b].children[i] in s
    {
      var x := more[b].children[i];
      if x !in extra {
        var j :| 0 <= j < |g[b].children| && g[b].children[j] == x;
      }
    }
    VisitIsLeast(more, root, {}, s);
  }

  /** Giving up a link to a marked block can hide it: the root's link to a is replaced by one to a new
      block b, which links to a. A reset turns back at b. */
  lemma ReplacedLinkHides(root: Block, a: Block, b: Block)
    requires root != a && root != b && a != b
    ensures var g := Detour(root, a, b, a);
            var more := Detour(root, a, b, b);
            Closed(g) && Closed(more) && Reached(more, root) == {root, a, b} &&
            Covered(g, root, {root, a}) && !Clearable(more, root, {root, a})
  {
    var g, more := Detour(root, a, b, a), Detour(root, a, b, b);
    VisitEncloses(g, root, {b});
    assert g.Keys - {root, a} == {b} == more.Keys - {root, a};
    assert g[root].children[0] == a && more[root].children[0] == b && more[b].children[0] == a;
    assert root in Members(Visit(g, root, {b}));
    VisitIsLeast(more, root, {b}, {root});
    VisitEncloses(more, root, {});
    VisitIsNew(more, root, {});
    assert root in Reached(more, root);
  }

  /** The root links to next, and b to a. */
  function Detour(root: Block, a: Block, b: Block, next: Block): Graph {
    map[root := Shape(8, [next], [next]), a := Shape(8, [], []), b := Shape(8, [a], [a])]
  }

  /** A marked block that drops out of reach is not met any more, and need not be. */
  lemma DroppedLinkIsHarmless(root: Block, a: Block, b: Block)
    requires root != a && root != b && a != b
    ensures var more: Graph := map[root := Shape(8, [b], [b]), a := Shape(8, [], []), b := Shape(8, [], [])];
            Closed(more) && !Covered(more, root, {root, a}) && Clearable(more, root, {root, a})
  {
    var more: Graph := map[root := Shape(8, [b], [b]), a := Shape(8, [], []), b := Shape(8, [], [])];
    assert more.Keys - {root, a} == {b};
    VisitIsLeast(more, root, {b}, {root});
    VisitIsLeast(more, root, {}, {root, b});
    assert root in Members(Visit(more, root, {b}));
  }

  /** Where all that the root reaches is marked, a reset meets all of it. */
  lemma MarkedIsClearable(g: Graph, root: Block, marked: set<Block>)
    requires Closed(g) && root in g && Reached(g, root) <= marked <= g.Keys
    ensures Cleared(g, root, marked) == Reached(g, root)
  {
    var all := Reached(g, root);
    var met := Members(Visit(g, root, g.Keys - marked));
    VisitEncloses(g, root, {});
    assert root in all;
    assert root in met;
    VisitIsLeast(g, root, g.Keys - marked, all);
    VisitEncloses(g, root, g.Keys - marked);
    assert Enclosed(g, met, {});
    VisitIsLeast(g, root, {}, met);
  }

  /** Once a full pass has marked what the root reaches, resetting would meet all of it. */
  lemma ReachedIsCovered(g: Graph, root: Block)
    requires Closed(g) && root in g
    ensures Covered(g, root, Reached(g, root))
  {
    hide Cleared;
    VisitIsNew(g, root, {});
    MarkedIsClearable(g, root, Reached(g, root));
  }

  /** Blocks outside a set that no link leaves do not matter to a traversal inside it. */
  lemma {:induction false} VisitIgnores(g: Graph, b: Block, done: set<Block>, far: set<Block>, s: set<Block>)
    requires Closed(g) && b in g && b !in done && b in s && Enclosed(g, s, {}) && s !! far
    ensures Visit(g, b, done + far) == Visit(g, b, done)
    decreases g.Keys - done, 0, 0
  {
    VisitAllIgnores(g, g[b].children, done + {b}, far, s);
    assert done + far + {b} == done + {b} + far;
  }

  lemma {:induction false} VisitAllIgnores(g: Graph, kids: seq<Block?>, done: set<Block>, far: set<Block>,
                                           s: set<Block>)
    requires Closed(g) && Kids(g, kids) && Enclosed(g, s, {}) && s !! far
    requires forall i :: 0 <= i < |kids| && kids[i] != null ==> kids[i] in s
    ensures VisitAll(g, kids, done + far) == VisitAll(g, kids, done)
    decreases g.Keys - done, 1, |kids|
  {
    if kids != [] {
      if kids[0] == null || kids[0] in done {
        VisitAllIgnores(g, kids[1..], done, far, s);
      } else {
        var first := Visit(g, kids[0], done);
        VisitIgnores(g, kids[0], done, far, s);
        assert kids[0] in Members(first);
        VisitAllIgnores(g, kids[1..], done + Members(first), far, s);
        assert done + far + Members(first) == done + Members(first) + far;
      }
    }
  }

  function NoLinks(slots: nat): seq<Block?> { seq(slots, _ => null) }

  // ----- sizes -----

  function Total(g: Graph, order: seq<Block>): nat
    requires forall b :: b in order ==> b in g
  {
    if order == [] then 0 else Total(g, order[..|order| - 1]) + g[order[|order| - 1]].size
  }

  lemma {:induction false} TotalAdds(g: Graph, a: seq<Block>, b: seq<Block>)
    requires forall x :: x in a + b ==> x in g
    ensures Total(g, a + b) == Total(g, a) + Total(g, b)
    decreases |b|
  {
    if b == [] {
      assert a + b == a;
    } else {
      var n := |b| - 1;
      assert (a + b)[..|a| + n] == a + b[..n];
      TotalAdds(g, a, b[..n]);
    }
  }

  // ----- the state of the blocks -----

  ghost predicate Matches(g: Graph)
    reads g.Keys
  {
    forall b :: b in g ==> HasShape(g[b], b.size, b.links, b.order)
  }

  ghost function Addresses(g: Graph): map<Block, nat>
    reads g.Keys
  {
    map b | b in g :: b.address
  }

  /** The blocks that have an address: 0 is none. */
  function Addressed(at: map<Block, nat>): set<Block> {
    set b | b in at && at[b] != 0
  }

  ghost function Serialized(g: Graph): set<Block>
    reads g.Keys
  {
    set b | b in g && b.serialized
  }

  ghost function Marks(g: Graph): map<Block, (nat, bool)>
    reads g.Keys
  {
    map b | b in g :: (b.address, b.serialized)
  }

  function Marked(marks: map<Block, (nat, bool)>): set<Block> {
    set b | b in marks && (marks[b].0 != 0 || marks[b].1)
  }

  /** At these addresses the blocks of order lie one after the other from base. */
  ghost predicate Placed(g: Graph, order: seq<Block>, base: nat, at: map<Block, nat>)
    requires forall b :: b in order ==> b in g && b in at
  {
    forall i :: 0 <= i < |order| ==> at[order[i]] == base + Total(g, order[..i])
  }

  lemma PlacedAppend(g: Graph, a: seq<Block>, b: seq<Block>, base: nat, before: map<Block, nat>,
                     at: map<Block, nat>)
    requires forall x :: x in a + b ==> x in g
    requires forall x :: x in a ==> x in g && x in before && x in at && at[x] == before[x]
    requires forall x :: x in b ==> x in g && x in at
    requires Placed(g, a, base, before) && Placed(g, b, base + Total(g, a), at)
    ensures Placed(g, a + b, base, at) && Total(g, a + b) == Total(g, a) + Total(g, b)
  {
    TotalAdds(g, a, b);
    forall i | 0 <= i < |a + b|
      ensures at[(a + b)[i]] == base + Total(g, (a + b)[..i])
    {
      if i < |a| {
        assert (a + b)[..i] == a[..i];
      } else {
        assert (a + b)[..i] == a + b[..i - |a|];
        TotalAdds(g, a, b[..i - |a|]);
      }
    }
  }

  /** The blocks of order are new and lie one after the other from base up to next. */
  ghost predicate LaidOut(g: Graph, done: set<Block>, order: seq<Block>, base: nat, next: nat,
                          at: map<Block, nat>)
  {
    (forall b :: b in order ==> b in g && b in at) && Members(order) !! done &&
    Placed(g, order, base, at) && next == base + Total(g, order)
  }

  lemma LaidOutAlone(g: Graph, b: Block, done: set<Block>, base: nat, at: map<Block, nat>)
    requires b in g && b in at && at[b] == base && b !in done
    ensures LaidOut(g, done, [b], base, base + g[b].size, at)
  {
    assert [b][..0] == [];
  }

  lemma LaidOutAppend(g: Graph, done: set<Block>, met: seq<Block>, first: seq<Block>, base: nat, middle: nat,
                      next: nat, before: map<Block, nat>, at: map<Block, nat>)
    requires LaidOut(g, done, met, base, middle, before)
    requires LaidOut(g, done + Members(met), first, middle, next, at)
    requires forall b :: b in before && b !in first ==> b in at && at[b] == before[b]
    ensures LaidOut(g, done, met + first, base, next, at)
  {
    forall b | b in met
      ensures b !in first
    {
      assert b in Members(met) && (b in first ==> b in Members(first));
    }
    PlacedAppend(g, met, first, base, before, at);
    assert Members(met + first) == Members(met) + Members(first);
  }

  /** What resolving from root does to the addresses: the blocks it meets, when those that have an
      address count as met, lie one after the other from base, and the others keep theirs. */
  ghost predicate Resolution(g: Graph, root: Block, base: nat, next: nat, before: map<Block, nat>,
                             at: map<Block, nat>)
    requires Closed(g) && root in g && root !in Addressed(before)
  {
    var order := Visit(g, root, Addressed(before));
    Resolving(g, root, order, [], base, next, before, at)
  }

  /** The same in the middle of the root's loop: met has been placed and kids are left. */
  ghost predicate Resolving(g: Graph, root: Block, met: seq<Block>, kids: seq<Block?>, base: nat, next: nat,
                            before: map<Block, nat>, at: map<Block, nat>)
    requires Closed(g) && root in g && root !in Addressed(before)
  {
    var done := Addressed(before);
    Kids(g, kids) && before.Keys == at.Keys == g.Keys && base < next && root in met &&
    Visit(g, root, done) == met + VisitAll(g, kids, done + Members(met)) &&
    LaidOut(g, done, met, base, next, at) &&
    (forall b :: b in at && b !in met ==> at[b] == before[b]) &&
    (base > 0 ==> Addressed(at) == done + Members(met))
  }

  lemma ResolvingStarts(g: Graph, root: Block, base: nat, before: map<Block, nat>, at: map<Block, nat>)
    requires Closed(g) && root in g && before.Keys == g.Keys && root !in Addressed(before)
    requires at == before[root := base] && g[root].size > 0
    ensures Resolving(g, root, [root], g[root].children[0..], base, base + g[root].size, before, at)
  {
    hide Visit, VisitAll;
    FirstKid(g, root, Addressed(before));
    LaidOutAlone(g, root, Addressed(before), base, at);
  }

  lemma ResolvingSkips(g: Graph, root: Block, met: seq<Block>, kids: seq<Block?>, i: nat, base: nat, next: nat,
                       before: map<Block, nat>, at: map<Block, nat>)
    requires Closed(g) && root in g && root !in Addressed(before) && i < |kids| && Kids(g, kids)
    requires Resolving(g, root, met, kids[i..], base, next, before, at)
    requires base > 0 && (kids[i] == null || kids[i] in Addressed(at))
    ensures Resolving(g, root, met, kids[i + 1..], base, next, before, at)
  {
    hide Visit, VisitAll, LaidOut;
    NextKid(g, kids, i, Addressed(before), met);
  }

  lemma ResolvingAdvances(g: Graph, root: Block, met: seq<Block>, kids: seq<Block?>, i: nat, base: nat,
                          middle: nat, next: nat, before: map<Block, nat>, at: map<Block, nat>,
                          after: map<Block, nat>)
    returns (more: seq<Block>)
    requires Closed(g) && root in g && root !in Addressed(before) && i < |kids| && Kids(g, kids)
    requires Resolving(g, root, met, kids[i..], base, middle, before, at)
    requires base > 0 && kids[i] != null && kids[i] !in Addressed(at)
    requires Resolution(g, kids[i], middle, next, at, after)
    ensures Resolving(g, root, more, kids[i + 1..], base, next, before, after)
  {
    hide Visit, VisitAll, LaidOut;
    var done := Addressed(before);
    var first := Visit(g, kids[i], Addressed(at));
    NextKid(g, kids, i, done, met);
    LaidOutAppend(g, done, met, first, base, middle, next, at, after);
    more := met + first;
  }

  lemma ResolvingEnds(g: Graph, root: Block, met: seq<Block>, kids: seq<Block?>, base: nat, next: nat,
                      before: map<Block, nat>, at: map<Block, nat>)
    requires Closed(g) && root in g && root !in Addressed(before) && kids == []
    requires Resolving(g, root, met, kids, base, next, before, at)
    ensures Resolution(g, root, base, next, before, at)
  {
    hide Visit, VisitAll, LaidOut;
    NoMoreKids(g, Addressed(before) + Members(met));
    assert met == Visit(g, root, Addressed(before));
  }

  lemma ResolvingGrows(g: Graph, root: Block, met: seq<Block>, kids: seq<Block?>, base: nat, next: nat,
                       before: map<Block, nat>, at: map<Block, nat>)
    requires Closed(g) && root in g && root !in Addressed(before) && base > 0
    requires Resolving(g, root, met, kids, base, next, before, at)
    ensures next > 0 && g.Keys - Addressed(at) < g.Keys - Addressed(before)
  {
    hide Visit, VisitAll, LaidOut;
    assert root in Addressed(at) by { assert root in Members(met); }
  }

  // ----- the stream -----

  /** A block as written: its length and its links. */
  datatype Record = Record(block: Block, length: nat, links: seq<nat>)

  class Stream {
    var log: seq<Record>

    constructor ()
      ensures log == []
    {
      log := [];
    }
  }

  function LinksOf(kids: seq<Block?>, at: map<Block, nat>): seq<nat>
    requires forall i :: 0 <= i < |kids| && kids[i] != null ==> kids[i] in at
  {
    seq(|kids|, i requires 0 <= i < |kids| => if kids[i] == null then 0 else at[kids[i]])
  }

  ghost function RecordOf(g: Graph, b: Block, at: map<Block, nat>): Record
    requires Closed(g) && b in g && g.Keys <= at.Keys
  {
    Record(b, g[b].size, LinksOf(g[b].links, at))
  }

  ghost function Records(g: Graph, order: seq<Block>, at: map<Block, nat>): seq<Record>
    requires Closed(g) && g.Keys <= at.Keys && forall b :: b in order ==> b in g
  {
    seq(|order|, i requires 0 <= i < |order| => RecordOf(g, order[i], at))
  }

  /** Every link of these blocks leads to an address, so none of them refuses to be written. */
  ghost predicate Linkable(g: Graph, order: seq<Block>, at: map<Block, nat>)
    requires Closed(g) && g.Keys <= at.Keys
  {
    forall b, k :: b in order && b in g && 0 <= k < |g[b].links| && g[b].links[k] != null ==>
      at[g[b].links[k]] != 0
  }

  /** What writing from root does: it stops with ok false at a link that leads to no address, and
      otherwise appends a record for each block it meets, when those already serialized count as met. */
  ghost predicate Outcome(g: Graph, root: Block, at: map<Block, nat>, ok: bool, written: nat,
                          before: set<Block>, now: set<Block>, log: seq<Record>, longer: seq<Record>)
    requires Closed(g) && root in g && root !in before && g.Keys <= at.Keys
  {
    var order := Visit(g, root, before);
    ok == Linkable(g, order, at) && before <= now <= before + Members(order) &&
    (ok ==> Writing(g, root, at, order, [], written, before, now, log, longer))
  }

  /** The same in the middle of the root's loop: met has been written and kids are left. */
  ghost predicate Writing(g: Graph, root: Block, at: map<Block, nat>, met: seq<Block>, kids: seq<Block?>,
                          written: nat, before: set<Block>, now: set<Block>, log: seq<Record>,
                          longer: seq<Record>)
    requires Closed(g) && root in g && root !in before && g.Keys <= at.Keys
  {
    Kids(g, kids) && root in met && (forall b :: b in met ==> b in g) &&
    Visit(g, root, before) == met + VisitAll(g, kids, before + Members(met)) &&
    now == before + Members(met) && Linkable(g, met, at) &&
    written == Total(g, met) && longer == log + Records(g, met, at)
  }

  lemma WritingStarts(g: Graph, root: Block, at: map<Block, nat>, before: set<Block>, log: seq<Record>)
    requires Closed(g) && root in g && root !in before && g.Keys <= at.Keys && Linkable(g, [root], at)
    ensures Writing(g, root, at, [root], g[root].children[0..], g[root].size, before, before + {root}, log,
                    log + [RecordOf(g, root, at)])
  {
    hide Visit, VisitAll;
    FirstKid(g, root, before);
    KidsAreIn(g, root);
    assert g[root].children[0..] == g[root].children;
    assert [root][..0] == [];
    assert Records(g, [root], at) == [RecordOf(g, root, at)];
    assert Total(g, [root]) == g[root].size;
    assert log + [RecordOf(g, root, at)] == log + Records(g, [root], at);
  }

  lemma WritingSkips(g: Graph, root: Block, at: map<Block, nat>, met: seq<Block>, kids: seq<Block?>, i: nat,
                     written: nat, before: set<Block>, now: set<Block>, log: seq<Record>, longer: seq<Record>)
    requires Closed(g) && root in g && root !in before && g.Keys <= at.Keys && i < |kids| && Kids(g, kids)
    requires Writing(g, root, at, met, kids[i..], written, before, now, log, longer)
    requires kids[i] == null || kids[i] in now
    ensures Writing(g, root, at, met, kids[i + 1..], written, before, now, log, longer)
  {
    hide Visit, VisitAll, Linkable, Records;
    NextKid(g, kids, i, before, met);
  }

  lemma WritingAdvances(g: Graph, root: Block, at: map<Block, nat>, met: seq<Block>, kids: seq<Block?>, i: nat,
                        ok: bool, written: nat, more: nat, before: set<Block>, now: set<Block>,
                        later: set<Block>, log: seq<Record>, longer: seq<Record>, longest: seq<Record>)
    returns (next: seq<Block>)
    requires Closed(g) && root in g && root !in before && g.Keys <= at.Keys && i < |kids| && Kids(g, kids)
    requires Writing(g, root, at, met, kids[i..], written, before, now, log, longer)
    requires kids[i] != null && kids[i] !in now && Outcome(g, kids[i], at, ok, more, now, later, longer, longest)
    ensures ok ==> Writing(g, root, at, next, kids[i + 1..], written + more, before, later, log, longest)
    ensures !ok ==> !Linkable(g, Visit(g, root, before), at) &&
                    before <= later <= before + Members(Visit(g, root, before))
  {
    hide Visit, VisitAll, RecordOf;
    var first := Visit(g, kids[i], now);
    NextKid(g, kids, i, before, met);
    next := met + first;
    if ok {
      NoMoreKids(g, now + Members(first));
      TotalAdds(g, met, first);
      assert Records(g, next, at) == Records(g, met, at) + Records(g, first, at);
    } else {
      var order := Visit(g, root, before);
      assert forall b :: b in next ==> b in order;
    }
  }

  lemma WritingEnds(g: Graph, root: Block, at: map<Block, nat>, met: seq<Block>, kids: seq<Block?>,
                    written: nat, before: set<Block>, now: set<Block>, log: seq<Record>, longer: seq<Record>)
    requires Closed(g) && root in g && root !in before && g.Keys <= at.Keys && kids == []
    requires Writing(g, root, at, met, kids, written, before, now, log, longer)
    ensures Outcome(g, root, at, true, written, before, now, log, longer)
  {
    hide Visit, VisitAll, Linkable, Records;
    NoMoreKids(g, before + Members(met));
    assert met == Visit(g, root, before);
  }

  // ----- resetting -----

  /** What resetting from root does to the marks: it clears those of the blocks it meets, turning
      back at blocks that have none. */
  ghost predicate Clearance(g: Graph, root: Block, before: map<Block, (nat, bool)>,
                            now: map<Block, (nat, bool)>)
    requires Closed(g) && root in g
  {
    var m := Marked(before);
    before.Keys == now.Keys == g.Keys &&
    Marked(now) == m - Cleared(g, root, m) &&
    forall b :: b in Marked(now) ==> b in before && now[b] == before[b]
  }

  ghost predicate Clearing(g: Graph, root: Block, met: seq<Block>, kids: seq<Block?>,
                           before: map<Block, (nat, bool)>, now: map<Block, (nat, bool)>)
    requires Closed(g) && root in g && root in Marked(before)
  {
    var m := Marked(before);
    before.Keys == now.Keys == g.Keys && Kids(g, kids) && root in met && Members(met) <= g.Keys &&
    Visit(g, root, g.Keys - m) == met + VisitAll(g, kids, g.Keys - m + Members(met)) &&
    Marked(now) == m - Members(met) && forall b :: b in Marked(now) ==> b in before && now[b] == before[b]
  }

  lemma ClearingStarts(g: Graph, root: Block, before: map<Block, (nat, bool)>)
    requires Closed(g) && root in g && root in Marked(before) && before.Keys == g.Keys
    ensures Clearing(g, root, [root], g[root].children[0..], before, before[root := (0, false)])
  {
    FirstKid(g, root, g.Keys - Marked(before));
    assert Marked(before[root := (0, false)]) == Marked(before) - {root};
  }

  lemma ClearingAdvances(g: Graph, root: Block, met: seq<Block>, kids: seq<Block?>, i: nat,
                         before: map<Block, (nat, bool)>, now: map<Block, (nat, bool)>,
                         later: map<Block, (nat, bool)>)
    returns (more: seq<Block>)
    requires Closed(g) && root in g && root in Marked(before) && i < |kids| && Kids(g, kids)
    requires Clearing(g, root, met, kids[i..], before, now)
    requires if kids[i] == null then later == now else Clearance(g, kids[i], now, later)
    ensures Clearing(g, root, more, kids[i + 1..], before, later)
  {
    hide Visit, VisitAll;
    var m := Marked(now);
    NextKid(g, kids, i, g.Keys - Marked(before), met);
    more := met;
    if kids[i] != null && kids[i] in m {
      var first := Visit(g, kids[i], g.Keys - m);
      VisitIsNew(g, kids[i], g.Keys - m);
      DoneSplits(g, Marked(before), m, met);
      more := met + first;
    }
  }

  lemma DoneSplits(g: Graph, before: set<Block>, now: set<Block>, met: seq<Block>)
    requires before <= g.Keys && now == before - Members(met) && Members(met) <= g.Keys
    ensures g.Keys - now == g.Keys - before + Members(met)
  {
  }

  lemma ClearingEnds(g: Graph, root: Block, met: seq<Block>, kids: seq<Block?>,
                     before: map<Block, (nat, bool)>, now: map<Block, (nat, bool)>)
    requires Closed(g) && root in g && root in Marked(before) && kids == []
    requires Clearing(g, root, met, kids, before, now)
    ensures Clearance(g, root, before, now)
  {
    hide Visit, VisitAll;
    NoMoreKids(g, g.Keys - Marked(before) + Members(met));
    assert met == Visit(g, root, g.Keys - Marked(before));
  }

  lemma ClearingShrinks(g: Graph, root: Block, met: seq<Block>, kids: seq<Block?>,
                        before: map<Block, (nat, bool)>, now: map<Block, (nat, bool)>)
    requires Closed(g) && root in g && root in Marked(before)
    requires Clearing(g, root, met, kids, before, now)
    ensures Marked(now) < Marked(before)
  {
    hide Visit, VisitAll;
    assert root in Members(met);
  }

  lemma UnmarkedClearance(g: Graph, root: Block, marks: map<Block, (nat, bool)>)
    requires Closed(g) && root in g && root !in Marked(marks) && marks.Keys == g.Keys
    ensures Clearance(g, root, marks, marks)
  {
  }

  // ----- blocks -----

  /** As many slots as there are, and every one of them, so each once. */
  predicate IsOrder(order: seq<nat>, slots: nat) {
    |order| == slots && forall i :: 0 <= i < slots ==> order[i] < slots && i in order
  }

  function Reordered(links: seq<Block?>, order: seq<nat>): seq<Block?>
    requires IsOrder(order, |links|)
  {
    seq(|order|, i requires 0 <= i < |order| => links[order[i]])
  }

  predicate HasShape(x: Shape, size: nat, links: seq<Block?>, order: seq<nat>) {
    size > 0 && IsOrder(order, |links|) && x == Shape(size, links, Reordered(links, order))
  }

  lemma ReorderedHasSame(size: nat, links: seq<Block?>, order: seq<nat>)
    requires IsOrder(order, |links|)
    ensures SameBlocks(Shape(size, links, Reordered(links, order)))
  {
    var children := Reordered(links, order);
    forall b | b in links
      ensures b in children
    {
      var k :| 0 <= k < |links| && links[k] == b;
      assert k in order;
      var i :| 0 <= i < |order| && order[i] == k;
      assert children[i] == b;
    }
  }

  lemma ReorderedEmpty(order: seq<nat>)
    requires IsOrder(order, |order|)
    ensures Reordered(NoLinks(|order|), order) == NoLinks(|order|)
  {
  }

  /** A block's links have slots, which its record takes in their order; each kind of block lists its
      children in an order of its own. */
  class Block {
    var size: nat
    var links: seq<Block?>
    var order: seq<nat>
    var address: nat
    var serialized: bool

    predicate Ordered()
      reads this
    {
      IsOrder(order, |links|)
    }

    function GetChildren(): seq<Block?>
      requires Ordered()
      reads this
    {
      Reordered(links, order)
    }

    constructor (size: nat, order: seq<nat>)
      requires size > 0 && IsOrder(order, |order|)
      ensures this.size == size && this.order == order && links == NoLinks(|order|)
      ensures Ordered() && GetChildren() == NoLinks(|order|) && address == 0 && !serialized
    {
      this.size := size;
      this.order := order;
      links := NoLinks(|order|);
      address := 0;
      serialized := false;
      ReorderedEmpty(order);
    }

    /** A link more, in a slot and a place of its own, behind the others. */
    method AddExtraLink(link: Block?)
      modifies this`links, this`order, this`size
      ensures links == old(links) + [link] && order == old(order) + [|old(links)|] && size == old(size) + 8
    {
      order := order + [|links|];
      links := links + [link];
      size := size + 8;
    }

    /** Gives addresses, from parentAddress up, to this block and to what it reaches through blocks
        that have none. Address 0 means none, so only a block without children can be put there. */
    method ResolveAddress(parentAddress: nat, ghost g: Graph) returns (next: nat)
      requires Closed(g) && Matches(g) && this in g && address == 0
      requires parentAddress > 0 || g[this].children == []
      modifies g.Keys`address
      ensures Resolution(g, this, parentAddress, next, old(Addresses(g)), Addresses(g))
      decreases g.Keys - Addressed(Addresses(g))
    {
      hide Resolution, Resolving, Closed, IsOrder, Reordered;
      ghost var before := Addresses(g);
      var children := GetChildren();
      assert size == g[this].size && size > 0 && children == g[this].children;
      hide HasShape;
      assert Kids(g, children) by { KidsAreIn(g, this); }
      address := parentAddress;
      next := address + size;
      ghost var met := [this];
      assert Addresses(g) == before[this := parentAddress];
      ResolvingStarts(g, this, parentAddress, before, Addresses(g));
      var i := 0;
      while i < |children|
        invariant 0 <= i <= |children|
        invariant Resolving(g, this, met, children[i..], parentAddress, next, before, Addresses(g))
      {
        var child := children[i];
        if child != null && child.address == 0 {
          ghost var middle, at := next, Addresses(g);
          ResolvingGrows(g, this, met, children[i..], parentAddress, next, before, at);
          next := child.ResolveAddress(next, g);
          met := ResolvingAdvances(g, this, met, children, i, parentAddress, middle, next, before, at, Addresses(g));
        } else {
          ResolvingSkips(g, this, met, children, i, parentAddress, next, before, Addresses(g));
        }
        i := i + 1;
      }
      ResolvingEnds(g, this, met, children[i..], parentAddress, next, before, Addresses(g));
    }

    /** The links to be written; fails at a link to a block that has no address. */
    method Serialize(ghost g: Graph) returns (ok: bool, buffer: seq<nat>)
      requires Closed(g) && Matches(g) && this in g
      ensures ok <==> Linkable(g, [this], Addresses(g))
      ensures ok ==> buffer == LinksOf(g[this].links, Addresses(g))
    {
      buffer := [];
      var i := 0;
      while i < |links|
        invariant 0 <= i <= |links| && |buffer| == i
        invariant forall k :: 0 <= k < i ==> buffer[k] == if links[k] == null then 0 else Addresses(g)[links[k]]
        invariant forall k :: 0 <= k < i && links[k] != null ==> Addresses(g)[links[k]] != 0
      {
        var link := links[i];
        if link != null && link.address == 0 {
          assert g[this].links[i] == link;
          return false, [];
        }
        buffer := buffer + [if link == null then 0 else link.address];
        i := i + 1;
      }
      ok := true;
    }

    /** Writes this block alone. */
    method WriteRecord(stream: Stream, ghost g: Graph) returns (ok: bool)
      requires Closed(g) && Matches(g) && this in g
      modifies this`serialized, stream
      ensures ok <==> Linkable(g, [this], Addresses(g))
      ensures ok ==> serialized && stream.log == old(stream.log) + [RecordOf(g, this, Addresses(g))]
      ensures !ok ==> serialized == old(serialized) && stream.log == old(stream.log)
    {
      hide Closed, Linkable, LinksOf, IsOrder, Reordered;
      ghost var at := Addresses(g);
      assert size == g[this].size;
      hide HasShape;
      var buffer;
      ok, buffer := Serialize(g);
      if !ok {
        return;
      }
      assert RecordOf(g, this, Addresses(g)) == Record(this, size, buffer);
      serialized := true;
      stream.log := stream.log + [Record(this, size, buffer)];
      assert Addresses(g) == at;
    }

    /** Writes this block and what it reaches through blocks not yet serialized. */
    method WriteToStream(stream: Stream, ghost g: Graph) returns (ok: bool, written: nat)
      requires Closed(g) && Matches(g) && this in g && !serialized
      modifies g.Keys`serialized, stream
      ensures Outcome(g, this, Addresses(g), ok, written, old(Serialized(g)), Serialized(g), old(stream.log),
                      stream.log)
      decreases g.Keys - Serialized(g)
    {
      hide IsOrder, Reordered, Outcome, Writing, Closed, Linkable, Visit, VisitAll, LinksOf, Records, Total, Members;
      ghost var before, log, at := Serialized(g), stream.log, Addresses(g);
      var children := GetChildren();
      assert size == g[this].size && size > 0 && children == g[this].children;
      hide HasShape;
      assert Kids(g, children) by { KidsAreIn(g, this); }
      written := 0;
      ok := WriteRecord(stream, g);
      assert Addresses(g) == at;
      if !ok {
        RefusalIsOutcome(g, this, at, before, log);
        return;
      }
      written := size;
      ghost var met := [this];
      WritingStarts(g, this, at, before, log);
      assert Serialized(g) == before + {this};
      assert stream.log == log + [RecordOf(g, this, at)];
      assert written == g[this].size;
      assert children[0..] == g[this].children[0..];
      assert Writing(g, this, at, met, children[0..], written, before, Serialized(g), log, stream.log);
      var i := 0;
      while i < |children|
        invariant 0 <= i <= |children| && Addresses(g) == at
        invariant Writing(g, this, at, met, children[i..], written, before, Serialized(g), log, stream.log)
      {
        var child := children[i];
        if child != null && !child.serialized {
          ghost var now, longer := Serialized(g), stream.log;
          WritingGrows(g, this, at, met, children[i..], written, before, now, log, longer);
          var more;
          ok, more := child.WriteToStream(stream, g);
          assert Addresses(g) == at;
          met := WritingAdvances(g, this, at, met, children, i, ok, written, more, before, now, Serialized(g), log,
                                 longer, stream.log);
          if !ok {
            FailureIsOutcome(g, this, at, before, Serialized(g), written, log, stream.log);
            return;
          }
          written := written + more;
        } else {
          WritingSkips(g, this, at, met, children, i, written, before, Serialized(g), log, stream.log);
        }
        i := i + 1;
      }
      WritingEnds(g, this, at, met, children[i..], written, before, Serialized(g), log, stream.log);
    }

    /** Clears the marks of this block and of the marked blocks it reaches through marked ones. */
    method Reset(ghost g: Graph)
      requires Closed(g) && Matches(g) && this in g
      modifies g.Keys`address, g.Keys`serialized
      ensures Clearance(g, this, old(Marks(g)), Marks(g))
      decreases Marked(Marks(g))
    {
      hide Clearance, Clearing, Closed, IsOrder, Reordered;
      ghost var before := Marks(g);
      if address == 0 && !serialized {
        UnmarkedClearance(g, this, before);
        return;
      }
      var children := GetChildren();
      assert size == g[this].size && size > 0 && children == g[this].children;
      hide HasShape;
      assert Kids(g, children) by { KidsAreIn(g, this); }
      address := 0;
      serialized := false;
      assert Marks(g) == before[this := (0, false)];
      ghost var met := [this];
      ClearingStarts(g, this, before);
      var i := 0;
      while i < |children|
        invariant 0 <= i <= |children|
        invariant Clearing(g, this, met, children[i..], before, Marks(g))
      {
        var child := children[i];
        ghost var now := Marks(g);
        if child != null {
          ClearingShrinks(g, this, met, children[i..], before, now);
          child.Reset(g);
        }
        met := ClearingAdvances(g, this, met, children, i, before, now, Marks(g));
        i := i + 1;
      }
      ClearingEnds(g, this, met, children[i..], before, Marks(g));
    }
  }

  lemma RefusalIsOutcome(g: Graph, root: Block, at: map<Block, nat>, before: set<Block>, log: seq<Record>)
    requires Closed(g) && root in g && root !in before && g.Keys <= at.Keys && !Linkable(g, [root], at)
    ensures Outcome(g, root, at, false, 0, before, before, log, log)
  {
    assert Visit(g, root, before)[0] == root;
  }

  lemma FailureIsOutcome(g: Graph, root: Block, at: map<Block, nat>, before: set<Block>, now: set<Block>,
                         written: nat, log: seq<Record>, longer: seq<Record>)
    requires Closed(g) && root in g && root !in before && g.Keys <= at.Keys
    requires !Linkable(g, Visit(g, root, before), at)
    requires before <= now <= before + Members(Visit(g, root, before))
    ensures Outcome(g, root, at, false, written, before, now, log, longer)
  {
  }

  lemma WritingGrows(g: Graph, root: Block, at: map<Block, nat>, met: seq<Block>, kids: seq<Block?>,
                     written: nat, before: set<Block>, now: set<Block>, log: seq<Record>, longer: seq<Record>)
    requires Closed(g) && root in g && root !in before && g.Keys <= at.Keys
    requires Writing(g, root, at, met, kids, written, before, now, log, longer)
    ensures g.Keys - now < g.Keys - before
  {
    hide Visit, VisitAll;
    assert root in Members(met);
  }
}
