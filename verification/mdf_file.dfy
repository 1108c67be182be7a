/** The MDF file writer: resets, resolves and writes its blocks, over any history of adding blocks and
    links and writing the file. */
module MdfFile {
  import opened MdfLayout

  // ----- what a reader of the file relies on -----

  /** Bytes taken by the records. */
  function Length(log: seq<Record>): nat {
    if log == [] then 0 else Length(log[..|log| - 1]) + log[|log| - 1].length
  }

  /** Where record i starts, counted from the first one. */
  function Offset(log: seq<Record>, i: nat): nat
    requires i <= |log|
  {
    Length(log[..i])
  }

  /** Every link of the records is 0 for a missing child, and otherwise the offset at which the child's
      own record starts. */
  ghost predicate LinksLead(g: Graph, log: seq<Record>) {
    forall i, k :: 0 <= i < |log| && log[i].block in g && 0 <= k < |g[log[i].block].links| ==>
      k < |log[i].links| && LeadsTo(log, log[i].links[k], g[log[i].block].links[k])
  }

  ghost predicate LeadsTo(log: seq<Record>, link: nat, child: Block?) {
    if child == null then link == 0
    else exists j :: 0 <= j < |log| && log[j].block == child && link == Offset(log, j)
  }

  function Blocks(log: seq<Record>): set<Block> {
    set r | r in log :: r.block
  }

  /** The file is the id block and then the header block and all it reaches: each once, with its own
      length, contiguous, and with links that lead to their blocks. */
  ghost predicate SoundFile(g: Graph, id: Block, header: Block, log: seq<Record>)
    requires Closed(g) && header in g
  {
    |log| >= 2 && log[0].block == id && log[1].block == header &&
    (forall i, j :: 0 <= i < j < |log| ==> log[i].block != log[j].block) &&
    Blocks(log[1..]) == Reached(g, header) &&
    (forall i :: 1 <= i < |log| ==> log[i].block in g && log[i].length == g[log[i].block].size) &&
    LinksLead(g, log)
  }

  lemma {:induction false} RecordsLength(g: Graph, order: seq<Block>, at: map<Block, nat>, i: nat)
    requires Closed(g) && g.Keys <= at.Keys && (forall b :: b in order ==> b in g) && i <= |order|
    ensures Length(Records(g, order, at)[..i]) == Total(g, order[..i])
  {
    var log := Records(g, order, at);
    if i > 0 {
      assert log[..i][..i - 1] == log[..i - 1] && order[..i][..i - 1] == order[..i - 1];
      RecordsLength(g, order, at, i - 1);
    }
  }

  lemma {:induction false} LengthAdds(a: seq<Record>, b: seq<Record>)
    ensures Length(a + b) == Length(a) + Length(b)
    decreases |b|
  {
    if b == [] {
      assert a + b == a;
    } else {
      assert (a + b)[..|a + b| - 1] == a + b[..|b| - 1];
      LengthAdds(a, b[..|b| - 1]);
    }
  }

  lemma RecordOffsets(g: Graph, order: seq<Block>, first: Record, at: map<Block, nat>, next: nat)
    requires Closed(g) && g.Keys <= at.Keys && LaidOut(g, {}, order, first.length, next, at)
    ensures var log := [first] + Records(g, order, at);
            Length(log) == next &&
            forall i :: 1 <= i < |log| ==> log[i].block in at && Offset(log, i) == at[log[i].block]
  {
    hide LinksOf, Total;
    var rest := Records(g, order, at);
    var log := [first] + rest;
    assert [first][..0] == [];
    forall i | 1 <= i <= |log|
      ensures Offset(log, i) == first.length + Total(g, order[..i - 1])
    {
      assert log[..i] == [first] + rest[..i - 1];
      LengthAdds([first], rest[..i - 1]);
      RecordsLength(g, order, at, i - 1);
    }
    assert log[..|log|] == log && order[..|order|] == order;
    assert Offset(log, |log|) == first.length + Total(g, order[..|log| - 1]);
  }

  /** The id block at offset 0 and blocks laid out behind it in the order of one traversal, written in
      the order of the other: since the orders are the same, the file is sound. */
  lemma LayoutMeetsFile(g: Graph, id: Block, header: Block, order: seq<Block>, first: Record,
                        at: map<Block, nat>, next: nat)
    requires Closed(g) && header in g && id !in g && g.Keys <= at.Keys && first.block == id
    requires order == Visit(g, header, {}) && LaidOut(g, {}, order, first.length, next, at)
    requires forall b :: b in order ==> b in g
    ensures SoundFile(g, id, header, [first] + Records(g, order, at))
  {
    hide Visit, LinksOf, LinksLead, Offset, LaidOut;
    var log := [first] + Records(g, order, at);
    VisitIsNew(g, header, {});
    assert order[0] == header;
    assert forall b :: b in order ==> b in Members(order);
    forall i, j | 0 <= i < j < |log|
      ensures log[i].block != log[j].block
    {
      if i > 0 { assert order[i - 1] != order[j - 1]; }
    }
    assert Blocks(log[1..]) == Members(order) by { RecordBlocks(g, order, first, at); }
    assert LinksLead(g, log) by { AllLinksLead(g, header, order, first, at, next); }
  }

  lemma RecordBlocks(g: Graph, order: seq<Block>, first: Record, at: map<Block, nat>)
    requires Closed(g) && g.Keys <= at.Keys && forall b :: b in order ==> b in g
    ensures Blocks(([first] + Records(g, order, at))[1..]) == Members(order)
  {
    hide LinksOf;
    var rest := Records(g, order, at);
    assert ([first] + rest)[1..] == rest;
    forall b | b in order
      ensures b in Blocks(rest)
    {
      var j :| 0 <= j < |order| && order[j] == b;
      assert rest[j].block == b && rest[j] in rest;
    }
  }

  lemma AllLinksLead(g: Graph, header: Block, order: seq<Block>, first: Record, at: map<Block, nat>, next: nat)
    requires Closed(g) && header in g && first.block !in g && g.Keys <= at.Keys
    requires order == Visit(g, header, {}) && LaidOut(g, {}, order, first.length, next, at)
    ensures LinksLead(g, [first] + Records(g, order, at))
  {
    hide Visit, Offset, LeadsTo;
    var log := [first] + Records(g, order, at);
    RecordOffsets(g, order, first, at, next);
    forall i, k | 0 <= i < |log| && log[i].block in g && 0 <= k < |g[log[i].block].links|
      ensures k < |log[i].links| && LeadsTo(log, log[i].links[k], g[log[i].block].links[k])
    {
      LinkLeads(g, header, order, first, at, i, k);
    }
  }

  lemma LinkLeads(g: Graph, header: Block, order: seq<Block>, first: Record, at: map<Block, nat>, i: nat, k: nat)
    requires Closed(g) && header in g && g.Keys <= at.Keys && first.block !in g
    requires order == Visit(g, header, {}) && forall b :: b in order ==> b in g
    requires var log := [first] + Records(g, order, at);
             i < |log| && log[i].block in g && k < |g[log[i].block].links| &&
             forall j :: 1 <= j < |log| ==> log[j].block in at && Offset(log, j) == at[log[j].block]
    ensures var log := [first] + Records(g, order, at);
            k < |log[i].links| && LeadsTo(log, log[i].links[k], g[log[i].block].links[k])
  {
    hide Visit, Offset;
    var log := [first] + Records(g, order, at);
    var child := g[log[i].block].links[k];
    assert log[i] == RecordOf(g, order[i - 1], at);
    if child != null {
      VisitEncloses(g, header, {});
      assert order[i - 1] in Members(order);
      assert child in g[order[i - 1]].children;
      assert child in Members(order);
      var j :| 0 <= j < |order| && order[j] == child;
      assert log[j + 1].block == child;
    }
  }

  // ----- one pass -----

  /** After a reset from the root no block that it reaches is marked, whatever the history that led to
      these marks, exactly if they are clearable. */
  lemma ResetIsComplete(g: Graph, root: Block, before: map<Block, (nat, bool)>, now: map<Block, (nat, bool)>)
    requires Closed(g) && root in g && Clearance(g, root, before, now)
    ensures root !in Marked(now)
    ensures Marked(now) !! Reached(g, root) <==> Clearable(g, root, Marked(before))
    ensures Marked(now) == {} <==> Covered(g, root, Marked(before))
  {
    var m := Marked(before);
    hide Visit, Reached;
    assert root in m ==> root in Members(Visit(g, root, g.Keys - m));
  }

  /** Resolving from the root places the blocks it meets when the marked ones count as met. */
  lemma ResolvesAll(g: Graph, root: Block, base: nat, next: nat, before: map<Block, nat>, at: map<Block, nat>)
    requires Closed(g) && root in g && root !in Addressed(before) && base > 0
    requires Resolution(g, root, base, next, before, at)
    ensures before.Keys == at.Keys == g.Keys
    ensures LaidOut(g, Addressed(before), Visit(g, root, Addressed(before)), base, next, at)
    ensures Addressed(at) == Addressed(before) + Members(Visit(g, root, Addressed(before)))
  {
  }

  /** The marks of a pass: what was marked before it, and what it met. */
  ghost predicate Passed(g: Graph, root: Block, m: set<Block>, marked: set<Block>)
    requires Closed(g) && root in g && root !in m
  {
    marked == m + Members(Visit(g, root, m))
  }

  lemma AllLinkable(g: Graph, root: Block, m: set<Block>, at: map<Block, nat>)
    requires Closed(g) && root in g && root !in m && at.Keys == g.Keys && Passed(g, root, m, Addressed(at))
    ensures Linkable(g, Visit(g, root, m), at)
  {
    hide Visit;
    VisitEncloses(g, root, m);
    var order := Visit(g, root, m);
    forall b, k | b in order && b in g && 0 <= k < |g[b].links| && g[b].links[k] != null
      ensures at[g[b].links[k]] != 0
    {
      assert b in Members(order) && g[b].links[k] in g[b].children;
      assert g[b].links[k] in Addressed(at);
    }
  }

  /** Writing from the root, when the blocks serialized before are those that had an address, writes
      exactly what was placed. */
  lemma WritesAll(g: Graph, root: Block, m: set<Block>, at: map<Block, nat>, ok: bool, written: nat,
                  now: set<Block>, log: seq<Record>, longer: seq<Record>)
    requires Closed(g) && root in g && root !in m && at.Keys == g.Keys && Passed(g, root, m, Addressed(at))
    requires Outcome(g, root, at, ok, written, m, now, log, longer)
    ensures (forall b :: b in Visit(g, root, m) ==> b in g) && ok && Passed(g, root, m, now)
    ensures written == Total(g, Visit(g, root, m)) && longer == log + Records(g, Visit(g, root, m), at)
  {
    hide Visit, Linkable, Records, Total;
    AllLinkable(g, root, m, at);
  }

  /** When no mark is left on a block the root reaches, a pass meets all it reaches. */
  lemma PassReaches(g: Graph, root: Block, m: set<Block>)
    requires Closed(g) && root in g && m !! Reached(g, root)
    ensures root !in m && Visit(g, root, m) == Visit(g, root, {})
  {
    VisitEncloses(g, root, {});
    assert root in Reached(g, root);
    VisitIgnores(g, root, {}, m, Reached(g, root));
    assert {} + m == m;
  }

  /** The records of a pass: the id block's, and one for each block that it meets, in its order. */
  ghost predicate Logged(g: Graph, id: Block, header: Block, base: nat, m: set<Block>, at: map<Block, nat>,
                         file: seq<Record>)
    requires Closed(g) && header in g && header !in m && g.Keys <= at.Keys
  {
    (forall b :: b in Visit(g, header, m) ==> b in g) &&
    file == [Record(id, base, [])] + Records(g, Visit(g, header, m), at)
  }

  lemma LoggedAll(g: Graph, id: Block, header: Block, base: nat, m: set<Block>, at: map<Block, nat>,
                  file: seq<Record>)
    requires Closed(g) && header in g && header !in m && g.Keys <= at.Keys && m !! Reached(g, header)
    requires Logged(g, id, header, base, m, at, file)
    ensures Logged(g, id, header, base, {}, at, file)
  {
    hide Visit, Records, Reached;
    PassReaches(g, header, m);
  }

  /** A pass that starts from any marks, the same of both kinds: it never fails, every record starts at
      its block's address, and the file is sound exactly if no block the header reaches was marked. */
  lemma PassIsSoundIff(g: Graph, id: Block, header: Block, base: nat, next: nat, m: set<Block>,
                       at: map<Block, nat>, ok: bool, written: nat, now: set<Block>, log: seq<Record>,
                       longer: seq<Record>)
    requires Closed(g) && header in g && id !in g && header !in m && at.Keys == g.Keys
    requires Passed(g, header, m, Addressed(at)) && LaidOut(g, m, Visit(g, header, m), base, next, at)
    requires Outcome(g, header, at, ok, written, m, now, log + [Record(id, base, [])], longer)
    ensures ok && now == Addressed(at) && |longer| >= |log| && longer[..|log|] == log
    ensures var file := longer[|log|..];
            base + written == Length(file) && file != [] && file[0].block == id && Offset(file, 0) == 0 &&
            forall i :: 1 <= i < |file| ==> file[i].block in at && Offset(file, i) == at[file[i].block]
    ensures SoundFile(g, id, header, longer[|log|..]) <==> m !! Reached(g, header)
    ensures Logged(g, id, header, base, m, at, longer[|log|..])
  {
    hide LaidOut, Outcome, Visit, Records, SoundFile, Length, Offset;
    var first, order := Record(id, base, []), Visit(g, header, m);
    WritesAll(g, header, m, at, ok, written, now, log + [first], longer);
    var file := [first] + Records(g, order, at);
    assert LaidOut(g, {}, order, base, next, at) by { LaidOutAnywhere(g, m, order, base, next, at); }
    RecordOffsets(g, order, first, at, next);
    assert next == base + Total(g, order) by { LaidOutEnds(g, order, base, next, at); }
    assert longer == log + file;
    assert longer[|log|..] == file;
    FirstOffset(file);
    if m !! Reached(g, header) {
      PassReaches(g, header, m);
      LayoutMeetsFile(g, id, header, order, first, at, next);
    } else {
      MarkedIsMissing(g, id, header, m, first, at);
    }
  }

  lemma FirstOffset(log: seq<Record>)
    ensures Offset(log, 0) == 0
  {
  }

  lemma LaidOutAnywhere(g: Graph, done: set<Block>, order: seq<Block>, base: nat, next: nat, at: map<Block, nat>)
    requires LaidOut(g, done, order, base, next, at)
    ensures LaidOut(g, {}, order, base, next, at)
  {
  }

  /** A block that was marked when the pass began is not in the file. */
  lemma MarkedIsMissing(g: Graph, id: Block, header: Block, m: set<Block>, first: Record, at: map<Block, nat>)
    requires Closed(g) && header in g && header !in m && g.Keys <= at.Keys && m * Reached(g, header) != {}
    requires forall b :: b in Visit(g, header, m) ==> b in g
    ensures !SoundFile(g, id, header, [first] + Records(g, Visit(g, header, m), at))
  {
    hide Visit, Records, LinksLead;
    RecordBlocks(g, Visit(g, header, m), first, at);
    VisitIsNew(g, header, m);
    var x :| x in m * Reached(g, header);
  }

  lemma LaidOutEnds(g: Graph, order: seq<Block>, base: nat, next: nat, at: map<Block, nat>)
    requires LaidOut(g, {}, order, base, next, at)
    ensures (forall b :: b in order ==> b in g) && next == base + Total(g, order)
  {
  }

  /** What the marks of a pass mean for the next reset. */
  lemma PassIsClearable(g: Graph, root: Block, m: set<Block>, marked: set<Block>)
    requires Closed(g) && root in g && m <= g.Keys && m !! Reached(g, root) && root !in m
    requires Passed(g, root, m, marked)
    ensures Clearable(g, root, marked) && (m == {} ==> Covered(g, root, marked)) && Reached(g, root) <= marked
  {
    hide Visit, Cleared;
    PassReaches(g, root, m);
    assert marked == m + Reached(g, root);
    VisitIsNew(g, root, {});
    MarkedIsClearable(g, root, marked);
    ReachedIsCovered(g, root);
  }

  /** A marked block that is reached only through a new one is not met by a reset. */
  lemma HiddenBehind(before: Graph, g: Graph, root: Block, a: Block, b: Block, marked: set<Block>)
    requires Closed(before) && Closed(g) && root in before && a !in before && b !in before
    requires g.Keys == before.Keys + {a, b} && a in marked && b !in marked
    requires forall x :: x in before && x != root ==> g[x] == before[x]
    requires forall x :: x in g[root].children && x != b ==> x in before[root].children
    requires b in g[root].children && a in g[b].children
    ensures !Clearable(g, root, marked)
  {
    var done := g.Keys - marked;
    forall x, i | x in before && 0 <= i < |g[x].children| && g[x].children[i] != null
      ensures g[x].children[i] in before.Keys || g[x].children[i] in done
    {
      var c := g[x].children[i];
      assert x == root && c != b ==> c in before[root].children;
    }
    assert Enclosed(g, before.Keys, done);
    if root in marked { VisitIsLeast(g, root, done, before.Keys); }
    ChildIsReached(g, root, root, b);
    ChildIsReached(g, root, b, a);
    assert a in marked * Reached(g, root) && a !in Cleared(g, root, marked);
  }

  lemma ChildIsReached(g: Graph, root: Block, b: Block, child: Block)
    requires Closed(g) && root in g && b in g && child in g[b].children && (b == root || b in Reached(g, root))
    ensures child in Reached(g, root)
  {
    VisitEncloses(g, root, {});
    assert root in Reached(g, root);
  }

  ghost predicate Alone(id: Block, g: Graph) {
    Closed(g) && id in g && g.Keys == {id} && g[id] == Shape(g[id].size, [], [])
  }

  lemma LoneBlock(id: Block, g: Graph)
    requires g.Keys == {id} && g[id] == Shape(g[id].size, [], [])
    ensures Alone(id, g) && Members([id]) == {id} && Total(g, [id]) == g[id].size
    ensures forall done: set<Block> :: id !in done ==> Visit(g, id, done) == [id]
  {
    assert [id][..0] == [];
  }

  lemma LoneCleared(id: Block, g: Graph, before: map<Block, (nat, bool)>, now: map<Block, (nat, bool)>)
    requires Alone(id, g) && Clearance(g, id, before, now)
    ensures Marked(now) == {}
  {
    LoneBlock(id, g);
  }

  lemma LoneResolved(id: Block, g: Graph, base: nat, next: nat, before: map<Block, nat>, at: map<Block, nat>)
    requires Alone(id, g) && id !in Addressed(before) && Resolution(g, id, base, next, before, at)
    ensures next == base + g[id].size && id in at && at[id] == base
  {
    hide Visit;
    LoneBlock(id, g);
    assert [id][..0] == [];
    assert id in [id];
  }

  lemma LoneWritten(id: Block, g: Graph, at: map<Block, nat>, ok: bool, written: nat, before: set<Block>,
                    now: set<Block>, log: seq<Record>, longer: seq<Record>)
    requires Alone(id, g) && id !in before && g.Keys <= at.Keys
    requires Outcome(g, id, at, ok, written, before, now, log, longer)
    ensures ok && written == g[id].size && longer == log + [Record(id, g[id].size, [])]
  {
    hide Visit;
    LoneBlock(id, g);
    assert LinksOf([], at) == [];
    assert Records(g, [id], at) == [Record(id, g[id].size, [])];
  }

  // ----- changes of the graph -----

  /** The block with one of its links set. */
  function Relinked(x: Shape, slot: nat, child: Block, order: seq<nat>): Shape
    requires slot < |x.links| && IsOrder(order, |x.links|)
  {
    var links := x.links[slot := child];
    Shape(x.size, links, Reordered(links, order))
  }

  /** The block with one more link, which its record and the traversals take last. */
  function Extended(x: Shape, child: Block?): Shape {
    Shape(x.size + 8, x.links + [child], x.children + [child])
  }

  /** No marked block comes back into the root's reach with the child. */
  ghost predicate BringsNoMark(g: Graph, root: Block, child: Block, marked: set<Block>)
    requires Closed(g) && root in g && child in g
  {
    marked * Reached(g, child) <= Reached(g, root)
  }

  /** One block has been changed, and links to no other blocks than before and perhaps child. */
  ghost predicate Changed(g: Graph, more: Graph, parent: Block, child: Block?) {
    parent in g && parent in more && more == g[parent := more[parent]] && SameBlocks(more[parent]) &&
    (child != null ==> child in g) &&
    forall x :: x in more[parent].children && x != child ==> x in g[parent].children
  }

  lemma ChangeCloses(g: Graph, more: Graph, parent: Block, child: Block?)
    requires Closed(g) && Changed(g, more, parent, child)
    ensures Closed(more)
  {
    forall x | x in more[parent].children && x != null
      ensures x in more
    {
      if x != child {
        var i :| 0 <= i < |g[parent].children| && g[parent].children[i] == x;
      }
    }
    assert forall i :: 0 <= i < |more[parent].links| ==> more[parent].links[i] in more[parent].children;
  }

  /** No marked block that is lost with a link stays in the root's reach. */
  ghost predicate LosesNoMark(g: Graph, more: Graph, root: Block, was: Block?, marked: set<Block>)
    requires Closed(g) && Closed(more) && root in more
  {
    was == null || was !in marked || (was in g && marked * Reached(g, was) !! Reached(more, root))
  }

  /** What that means for the next reset. */
  lemma ChangeKeeps(g: Graph, more: Graph, root: Block, parent: Block, child: Block?, was: Block?,
                    marked: set<Block>)
    requires Closed(g) && Closed(more) && root in g && Changed(g, more, parent, child) && marked <= g.Keys
    requires forall x :: x in g[parent].children && x != was ==> x in more[parent].children
    ensures Covered(g, root, marked) && (was == null || was !in marked) ==> Covered(more, root, marked)
    ensures (Clearable(g, root, marked) && (child == null || BringsNoMark(g, root, child, marked)) &&
             LosesNoMark(g, more, root, was, marked)) ==> Clearable(more, root, marked)
  {
    hide Covered, Clearable, Reached, Extends, Enclosed;
    if was == null || was !in marked {
      ChangeExtends(g, more, parent, child, was, marked, {});
      if Covered(g, root, marked) { CoveredGrows(g, more, root, marked); }
    }
    if Clearable(g, root, marked) && (child == null || BringsNoMark(g, root, child, marked)) {
      ChangeReaches(g, more, root, parent, child, marked);
      if was == null || was !in marked {
        NothingIsEnclosed(g, g.Keys - marked);
        ClearableGrows(g, more, root, marked, {});
      } else if LosesNoMark(g, more, root, was, marked) {
        ReachIsEnclosed(g, was, g.Keys - marked);
        ChangeExtends(g, more, parent, child, was, marked, Reached(g, was));
        ClearableGrows(g, more, root, marked, Reached(g, was));
      }
    }
  }

  lemma NothingIsEnclosed(g: Graph, done: set<Block>)
    ensures Enclosed(g, {}, done)
  {
  }

  lemma ReachIsEnclosed(g: Graph, b: Block, done: set<Block>)
    requires Closed(g) && b in g
    ensures b in Reached(g, b) && Enclosed(g, Reached(g, b), done) && Enclosed(g, Reached(g, b), {})
    ensures Reached(g, b) <= g.Keys
  {
    VisitEncloses(g, b, {});
    VisitIsNew(g, b, {});
  }

  lemma ChangeExtends(g: Graph, more: Graph, parent: Block, child: Block?, was: Block?, marked: set<Block>,
                      lost: set<Block>)
    requires Closed(g) && Changed(g, more, parent, child)
    requires forall x :: x in g[parent].children && x != was ==> x in more[parent].children
    requires was == null || was !in marked || was in lost
    ensures Extends(g, more, marked, lost)
  {
    forall b, i | b in g && 0 <= i < |g[b].children| && g[b].children[i] in marked - lost
      ensures exists j :: 0 <= j < |more[b].children| && more[b].children[j] == g[b].children[i]
    {
      var x := g[b].children[i];
      assert x in more[b].children;
    }
  }

  lemma ChangeReaches(g: Graph, more: Graph, root: Block, parent: Block, child: Block?, marked: set<Block>)
    requires Closed(g) && Closed(more) && root in g && Changed(g, more, parent, child)
    requires child == null || BringsNoMark(g, root, child, marked)
    ensures marked * Reached(more, root) <= Reached(g, root)
  {
    hide Reached, Enclosed;
    if child == null {
      NothingIsEnclosed(g, {});
      ReachedGrows(g, more, root, {});
    } else {
      ReachIsEnclosed(g, child, {});
      ReachedGrows(g, more, root, Reached(g, child));
    }
  }

  lemma RelinkedChildren(x: Shape, slot: nat, child: Block, order: seq<nat>)
    requires slot < |x.links| && HasShape(x, x.size, x.links, order)
    ensures var y := Relinked(x, slot, child, order);
            SameBlocks(y) && child in y.children && HasShape(y, x.size, x.links[slot := child], order) &&
            (forall c :: c in y.children && c != child ==> c in x.children) &&
            forall c :: c in x.children && c != x.links[slot] ==> c in y.children
  {
    var y := Relinked(x, slot, child, order);
    ReorderedHasSame(x.size, y.links, order);
    assert y.links[slot] == child;
    forall c | c in y.children && c != child
      ensures c in x.children
    {
      var i :| 0 <= i < |y.children| && y.children[i] == c;
      assert x.children[i] == c;
    }
    forall c | c in x.children && c != x.links[slot]
      ensures c in y.children
    {
      var i :| 0 <= i < |x.children| && x.children[i] == c;
      assert y.children[i] == c;
    }
  }

  lemma RelinkedIsChanged(g: Graph, parent: Block, slot: nat, child: Block, order: seq<nat>)
    requires Closed(g) && parent in g && child in g && slot < |g[parent].links|
    requires HasShape(g[parent], g[parent].size, g[parent].links, order)
    ensures var more := g[parent := Relinked(g[parent], slot, child, order)];
            Changed(g, more, parent, child) &&
            forall x :: x in g[parent].children && x != g[parent].links[slot] ==> x in more[parent].children
  {
    hide HasShape, Relinked;
    RelinkedChildren(g[parent], slot, child, order);
  }

  lemma ExtendedIsChanged(g: Graph, parent: Block, child: Block?)
    requires Closed(g) && parent in g && (child != null ==> child in g)
    ensures var more := g[parent := Extended(g[parent], child)];
            Changed(g, more, parent, child) && forall x :: x in g[parent].children ==> x in more[parent].children
  {
  }

  lemma ExtendedHasShape(x: Shape, child: Block?, size: nat, links: seq<Block?>, order: seq<nat>)
    requires HasShape(x, size, links, order)
    ensures HasShape(Extended(x, child), size + 8, links + [child], order + [|links|])
  {
    var more := order + [|links|];
    assert more[|links|] == |links|;
    forall i | 0 <= i < |more|
      ensures i in more
    {
      if i < |links| { assert i in order; }
    }
    assert Reordered(links + [child], more) == Reordered(links, order) + [child];
  }

  /** Setting a link. */
  lemma Relinks(g: Graph, root: Block, parent: Block, slot: nat, child: Block, links: seq<Block?>, order: seq<nat>,
                marked: set<Block>)
    returns (more: Graph)
    requires Closed(g) && root in g && parent in g && child in g && slot < |links| && marked <= g.Keys
    requires HasShape(g[parent], g[parent].size, links, order)
    ensures g[parent].links == links && IsOrder(order, |links|)
    ensures more == g[parent := Relinked(g[parent], slot, child, order)] && more[parent].size == g[parent].size
    ensures more[parent].links == links[slot := child]
    ensures HasShape(more[parent], g[parent].size, links[slot := child], order) && Closed(more)
    ensures Covered(g, root, marked) && (links[slot] == null || links[slot] !in marked) ==> Covered(more, root, marked)
    ensures (Clearable(g, root, marked) && BringsNoMark(g, root, child, marked) &&
             LosesNoMark(g, more, root, links[slot], marked)) ==> Clearable(more, root, marked)
    ensures links[slot] == null ==> LosesNoMark(g, more, root, links[slot], marked)
  {
    hide Covered, Clearable, BringsNoMark, Changed, Closed;
    more := g[parent := Relinked(g[parent], slot, child, order)];
    RelinkedIsChanged(g, parent, slot, child, order);
    ChangeCloses(g, more, parent, child);
    ChangeKeeps(g, more, root, parent, child, links[slot], marked);
  }

  /** Adding a link. */
  lemma AddsLink(g: Graph, root: Block, parent: Block, child: Block?, links: seq<Block?>, order: seq<nat>,
                 marked: set<Block>)
    returns (more: Graph)
    requires Closed(g) && root in g && parent in g && (child != null ==> child in g) && marked <= g.Keys
    requires HasShape(g[parent], g[parent].size, links, order)
    ensures more == g[parent := Extended(g[parent], child)] && Closed(more)
    ensures HasShape(more[parent], g[parent].size + 8, links + [child], order + [|links|])
    ensures Covered(g, root, marked) ==> Covered(more, root, marked)
    ensures Clearable(g, root, marked) && (child == null || BringsNoMark(g, root, child, marked)) ==>
              Clearable(more, root, marked)
  {
    hide Covered, Clearable, BringsNoMark, Changed, Closed, HasShape;
    more := g[parent := Extended(g[parent], child)];
    ExtendedIsChanged(g, parent, child);
    ChangeCloses(g, more, parent, child);
    ChangeKeeps(g, more, root, parent, child, null, marked);
    ExtendedHasShape(g[parent], child, g[parent].size, links, order);
  }

  /** A new block that has no links and that none leads to. */
  lemma BlankKeeps(g: Graph, more: Graph, root: Block, b: Block, size: nat, order: seq<nat>, marked: set<Block>)
    requires Closed(g) && root in g && b !in g && marked <= g.Keys && size > 0 && IsOrder(order, |order|)
    requires more == g[b := Shape(size, NoLinks(|order|), NoLinks(|order|))]
    ensures Closed(more) && HasShape(more[b], size, NoLinks(|order|), order)
    ensures Covered(g, root, marked) ==> Covered(more, root, marked)
    ensures Clearable(g, root, marked) ==> Clearable(more, root, marked)
  {
    hide Covered, Clearable, Reached;
    ReorderedEmpty(order);
    NothingIsEnclosed(g, {});
    NothingIsEnclosed(g, g.Keys - marked);
    ReachedGrows(g, more, root, {});
    if Covered(g, root, marked) { CoveredGrows(g, more, root, marked); }
    if Clearable(g, root, marked) { ClearableGrows(g, more, root, marked, {}); }
  }

  /** What two blocks reach, the second of which links to nothing and the first only to the second. */
  lemma PairReaches(g: Graph, b: Block, child: Block)
    requires Closed(g) && b in g && child in g
    requires forall x :: x in g[b].children && x != null ==> x == child
    requires forall x :: x in g[child].children ==> x == null
    ensures Reached(g, b) <= {b, child} && Reached(g, child) <= {child}
  {
    forall x, i | x in {b, child} && 0 <= i < |g[x].children| && g[x].children[i] != null
      ensures g[x].children[i] == child
    {
      assert g[x].children[i] in g[x].children;
    }
    VisitIsLeast(g, b, {}, {b, child});
    assert Enclosed(g, {child}, {});
    VisitIsLeast(g, child, {}, {child});
  }

  // ----- slots and chains -----

  /** The slots of some links, and the orders in which the blocks list their children. */
  const NEXT := 0
  const HISTORY := 1
  const EVENT := 4
  const COMMENT := 1
  const DATA := 2
  const HEADER_ORDER: seq<nat> := [5, 1, 2, 3, 4, 0]
  const HISTORY_ORDER: seq<nat> := [1, 0]
  const GROUP_ORDER: seq<nat> := [3, 1, 2, 0]

  lemma HeaderOrder()
    ensures IsOrder(HEADER_ORDER, 6)
  {
    forall i | 0 <= i < 6
      ensures i in HEADER_ORDER
    {
      assert HEADER_ORDER[if i == 0 then 5 else if i == 5 then 0 else i] == i;
    }
  }

  lemma HistoryOrder()
    ensures IsOrder(HISTORY_ORDER, 2)
  {
    assert HISTORY_ORDER[0] == 1 && HISTORY_ORDER[1] == 0;
  }

  lemma GroupOrder()
    ensures IsOrder(GROUP_ORDER, 4)
  {
    forall i | 0 <= i < 4
      ensures i in GROUP_ORDER
    {
      assert GROUP_ORDER[if i == 0 then 3 else if i == 3 then 0 else i] == i;
    }
  }

  lemma NoOrder()
    ensures IsOrder([], 0)
  {
  }

  lemma UnitOrder()
    ensures IsOrder([0], 1)
  {
  }

  function Last(chain: seq<Block>): Block
    requires chain != []
  {
    chain[|chain| - 1]
  }

  ghost predicate Chained(g: Graph, chain: seq<Block>, i: nat)
    requires i < |chain|
  {
    chain[i] in g && |g[chain[i]].links| > NEXT &&
    g[chain[i]].links[NEXT] == if i + 1 < |chain| then chain[i + 1] else null
  }

  /** Each block links the next in its first slot, and that of the last one is empty. */
  ghost predicate Chain(g: Graph, chain: seq<Block>) {
    chain != [] && forall i :: 0 <= i < |chain| ==> Chained(g, chain, i)
  }

  lemma ChainStays(g: Graph, more: Graph, chain: seq<Block>)
    requires Chain(g, chain) && forall b :: b in g ==> b in more && more[b] == g[b]
    ensures Chain(more, chain)
  {
    forall i | 0 <= i < |chain|
      ensures Chained(more, chain, i)
    {
      assert Chained(g, chain, i);
    }
  }

  /** The block behind which another is linked is not met twice, as its first slot is empty. */
  lemma ChainGrows(g: Graph, more: Graph, chain: seq<Block>, next: Block)
    requires Chain(g, chain) && next in g && next !in chain
    requires |g[next].links| > NEXT && g[next].links[NEXT] == null && Last(chain) in more
    requires more == g[Last(chain) := more[Last(chain)]]
    requires |more[Last(chain)].links| > NEXT && more[Last(chain)].links[NEXT] == next
    ensures Chain(more, chain + [next])
  {
    var longer := chain + [next];
    assert Chained(g, chain, |chain| - 1);
    forall i | 0 <= i < |longer|
      ensures Chained(more, longer, i)
    {
      if i < |chain| { assert Chained(g, chain, i); }
    }
  }

  lemma ChainEnds(g: Graph, chain: seq<Block>)
    requires Chain(g, chain)
    ensures chain != [] && Chained(g, chain, 0) && Chained(g, chain, |chain| - 1)
    ensures g[chain[0]].links[NEXT] == if |chain| == 1 then null else chain[1]
    ensures |chain| > 1 ==> g[chain[0]].links[NEXT] != null
  {
    assert Chained(g, chain, 0);
  }

  lemma ChainShortens(g: Graph, chain: seq<Block>)
    requires Chain(g, chain) && |chain| > 1
    ensures Chain(g, chain[1..]) && Last(chain[1..]) == Last(chain)
  {
    forall i | 0 <= i < |chain| - 1
      ensures Chained(g, chain[1..], i)
    {
      assert Chained(g, chain, i + 1);
    }
  }

  lemma ChainIsReached(g: Graph, chain: seq<Block>)
    requires Closed(g) && Chain(g, chain)
    ensures Chained(g, chain, 0) && Last(chain) in Reached(g, chain[0])
  {
    assert Chained(g, chain, 0);
    var s := Reached(g, chain[0]);
    VisitEncloses(g, chain[0], {});
    assert chain[0] in s;
    var i := 0;
    while i < |chain| - 1
      invariant 0 <= i < |chain| && chain[i] in s
    {
      assert Chained(g, chain, i) && Chained(g, chain, i + 1);
      assert g[chain[i]].links[NEXT] in g[chain[i]].children;
      i := i + 1;
    }
  }

  // ----- the file -----

  /** The blocks that have an address are those that have been serialized. */
  ghost predicate Paired(g: Graph)
    reads g.Keys
  {
    forall b :: b in g ==> (b.address != 0 <==> b.serialized)
  }

  /** A new file: a header of 104 bytes with six links, of which the second leads to a file history of
      56 bytes with two, of which the second leads to a comment. Nothing else is linked. */
  ghost predicate NewFile(g: Graph, header: Block, history: Block, text: Block, comment: nat) {
    header != history && header != text && history != text &&
    g == map[header := Shape(104, [null, history, null, null, null, null], [null, history, null, null, null, null]),
             history := Shape(56, [null, text], [text, null]),
             text := Shape(24 + comment, [], [])]
  }

  /** A new data group: 64 bytes with four links, of which the third leads to a data block of 24 bytes. */
  ghost predicate NewGroup(g: Graph, group: Block, data: Block) {
    group != data && group in g && data in g && g[data] == Shape(24, [], []) &&
    g[group] == Shape(64, [null, null, data, null], [null, null, data, null])
  }

  /** What such a file reaches, in the order in which it is written. */
  lemma NewFileOrder(g: Graph, header: Block, history: Block, text: Block, comment: nat)
    requires NewFile(g, header, history, text, comment) && Closed(g)
    ensures Visit(g, header, {}) == [header, history, text]
  {
    var kids: seq<Block?> := [null, history, null, null, null, null];
    var done: set<Block> := {} + {header};
    assert done == {header} && g[header].children == kids;
    HistoryAndText(g, header, history, text, comment);
    NextLink(g, kids, done);
    assert kids[1..] == [history] + [null, null, null, null];
    LastLink(g, history, [null, null, null, null], done);
    assert [header] + [history, text] == [header, history, text];
  }

  lemma HistoryAndText(g: Graph, header: Block, history: Block, text: Block, comment: nat)
    requires NewFile(g, header, history, text, comment) && Closed(g)
    ensures Visit(g, history, {header}) == [history, text]
  {
    var done := {header} + {history};
    assert Visit(g, text, done) == [text];
    LastLink(g, text, [null], done);
    assert [history] + [text] == [history, text];
  }

  /** A link and then only empty ones. */
  lemma LastLink(g: Graph, b: Block, rest: seq<Block?>, done: set<Block>)
    requires Closed(g) && b in g && b !in done && forall i :: 0 <= i < |rest| ==> rest[i] == null
    ensures VisitAll(g, [b] + rest, done) == Visit(g, b, done)
  {
    var kids: seq<Block?> := [b] + rest;
    assert kids[0] == b && kids[1..] == rest;
    NoLinksLeft(g, rest, done + Members(Visit(g, b, done)));
  }

  /** The records of a new file, when each starts at its block's address. */
  lemma NewFileLog(g: Graph, id: Block, header: Block, history: Block, text: Block, comment: nat,
                   at: map<Block, nat>, log: seq<Record>)
    requires NewFile(g, header, history, text, comment) && Closed(g) && at.Keys == g.Keys
    requires log == [Record(id, 64, [])] + Records(g, [header, history, text], at)
    requires forall i :: 1 <= i < |log| ==> log[i].block in at && at[log[i].block] == Offset(log, i)
    ensures log == [Record(id, 64, []), Record(header, 104, [0, 168, 0, 0, 0, 0]), Record(history, 56, [0, 224]),
                    Record(text, 24 + comment, [])]
  {
    assert |log| == 4 && log[1].block == header && log[2].block == history && log[3].block == text;
    assert log[0].length == 64 && log[1].length == 104 && log[2].length == 56;
    OffsetGrows(log, 1);
    OffsetGrows(log, 2);
    OffsetGrows(log, 0);
    FirstOffset(log);
    assert at[history] == 168 && at[text] == 224;
    assert LinksOf(g[header].links, at) == [0, 168, 0, 0, 0, 0];
    assert LinksOf(g[history].links, at) == [0, 224];
    assert LinksOf(g[text].links, at) == [];
  }

  lemma OffsetGrows(log: seq<Record>, i: nat)
    requires i < |log|
    ensures Offset(log, i + 1) == Offset(log, i) + log[i].length
  {
    assert log[..i + 1][..i] == log[..i];
  }

  lemma NextLink(g: Graph, kids: seq<Block?>, done: set<Block>)
    requires Closed(g) && Kids(g, kids) && kids != [] && kids[0] == null
    ensures VisitAll(g, kids, done) == VisitAll(g, kids[1..], done)
  {
  }

  lemma {:induction false} NoLinksLeft(g: Graph, kids: seq<Block?>, done: set<Block>)
    requires Closed(g) && Kids(g, kids) && forall i :: 0 <= i < |kids| ==> kids[i] == null
    ensures VisitAll(g, kids, done) == []
    decreases |kids|
  {
    if kids != [] { NoLinksLeft(g, kids[1..], done); }
  }

  class Mdf4File {
    const id: Block
    const header: Block
    ghost var g: Graph

    /** The graph is the header's blocks and any others made for the file. */
    ghost predicate Formed()
      reads this, id, g.Keys
    {
      Closed(g) && Matches(g) && header in g && id !in g && id.size > 0 && id.links == [] && id.order == [] &&
      id.address == 0
    }

    /** Formed, and between two passes. */
    ghost predicate Valid()
      reads this, id, g.Keys
    {
      Formed() && Paired(g)
    }

    ghost function MarkedBlocks(): set<Block>
      reads this, g.Keys
    {
      Marked(Marks(g))
    }

    /** The next reset clears every mark that matters. */
    ghost predicate Ready()
      requires Formed()
      reads this, id, g.Keys
    {
      Clearable(g, header, MarkedBlocks())
    }

    /** It clears every mark; adding blocks and links keeps it so. */
    ghost predicate Kept()
      requires Formed()
      reads this, id, g.Keys
    {
      Covered(g, header, MarkedBlocks())
    }

    lemma KeptIsReady()
      requires Formed() && Kept()
      ensures Ready()
    {
    }

    /** The header starts with a file history and its comment. */
    constructor (comment: nat)
      requires comment > 0
      ensures Valid() && Kept() && Ready() && fresh(id) && fresh(g.Keys) && id.size == 64
      ensures exists history, text :: NewFile(g, header, history, text, comment)
    {
      NoOrder();
      HeaderOrder();
      hide *;
      var i := new Block(64, []);
      var h := new Block(104, HEADER_ORDER);
      id := i;
      header := h;
      g := map[h := Shape(104, NoLinks(6), NoLinks(6))];
      NoSlots();
      new;
      ghost var history, text := Begin(comment);
    }

    method Begin(comment: nat) returns (ghost history: Block, ghost text: Block)
      requires comment > 0 && id != header && id.size > 0 && id.links == [] && id.order == [] && id.address == 0
      requires header.size == 104 && header.links == NoLinks(6) && header.order == HEADER_ORDER
      requires header.address == 0 && !header.serialized && g == map[header := Shape(104, NoLinks(6), NoLinks(6))]
      modifies this`g, header`links
      ensures Valid() && Kept() && Ready() && fresh(g.Keys - old(g.Keys))
      ensures NewFile(g, header, history, text, comment)
    {
      hide Covered, Clearable, Closed, HasShape, IsOrder;
      HeaderOrder();
      EmptySlot(6, HISTORY);
      LoneHeader(g, header, 104, HEADER_ORDER);
      assert MarkedBlocks() == {};
      history, text := AddHistory(comment);
      KeptIsReady();
      HeaderShape(history);
      HistoryShape(text);
      assert NoLinks(0) == [];
    }

    method AddHistory(comment: nat) returns (ghost history: Block, ghost text: Block)
      requires Valid() && Kept() && comment > 0 && |header.links| > HISTORY && header.links[HISTORY] == null
      modifies this`g, header`links
      ensures Valid() && Kept() && fresh(g.Keys - old(g.Keys))
      ensures IsOrder(HISTORY_ORDER, 2) && fresh(history) && fresh(text) && history != text
      ensures HISTORY < |old(g)[header].links| && IsOrder(header.order, |old(g)[header].links|)
      ensures g == old(g)[text := Shape(24 + comment, [], [])]
                         [history := Relinked(Shape(56, NoLinks(2), NoLinks(2)), COMMENT, text, HISTORY_ORDER)]
                         [header := Relinked(old(g)[header], HISTORY, history, header.order)]
    {
      hide Covered, Clearable, Closed, HasShape, IsOrder, Reached, Marked, BringsNoMark, LosesNoMark, Relinked;
      HistoryOrder();
      var first, comments := CreateLinked(56, HISTORY_ORDER, COMMENT, 24 + comment);
      history, text := first, comments;
      SetLink(header, HISTORY, first);
    }

    /** Two new blocks, the second linked from the first. */
    method CreateLinked(size: nat, order: seq<nat>, slot: nat, childSize: nat) returns (b: Block, child: Block)
      requires Valid() && size > 0 && IsOrder(order, |order|) && slot < |order| && childSize > 0
      modifies this`g
      ensures Valid() && fresh(b) && fresh(child) && b != child
      ensures b.address == child.address == 0 && !b.serialized && !child.serialized
      ensures forall o :: o in old(g) ==> o in g && g[o] == old(g)[o]
      ensures g.Keys == old(g.Keys) + {b, child}
      ensures g == old(g)[child := Shape(childSize, [], [])]
                         [b := Relinked(Shape(size, NoLinks(|order|), NoLinks(|order|)), slot, child, order)]
      ensures g[b].links == NoLinks(|order|)[slot := child] && g[child].links == []
      ensures b.size == size && b.order == order
      ensures old(Kept()) ==> Kept()
      ensures old(Ready()) ==> Ready()
    {
      hide *;
      NoOrder();
      child := CreateBlock(childSize, []);
      NoSlots();
      b := CreateBlock(size, order);
      EmptySlot(|order|, slot);
      LoneBringsNothing(child);
      SetLink(b, slot, child);
    }

    lemma LoneBringsNothing(child: Block)
      requires Valid() && child in g && child.address == 0 && !child.serialized && child.links == []
      ensures BringsNoMark(g, header, child, MarkedBlocks())
    {
      hide Reached;
      assert SameBlocks(g[child]);
      PairReaches(g, child, child);
    }

    /** A new block for the file, with empty link slots, not linked from others yet. */
    method CreateBlock(size: nat, order: seq<nat>) returns (b: Block)
      requires Valid() && size > 0 && IsOrder(order, |order|)
      modifies this`g
      ensures Valid() && fresh(b) && b.address == 0 && !b.serialized
      ensures b.size == size && b.order == order && b.links == NoLinks(|order|)
      ensures g == old(g)[b := Shape(size, NoLinks(|order|), NoLinks(|order|))]
      ensures MarkedBlocks() == old(MarkedBlocks()) && b !in MarkedBlocks()
      ensures old(Kept()) ==> Kept()
      ensures old(Ready()) ==> Ready()
    {
      hide Covered, Clearable, Closed, HasShape, IsOrder, Marked;
      b := new Block(size, order);
      ghost var more := g[b := Shape(size, NoLinks(|order|), NoLinks(|order|))];
      MarksAreBlocks(g);
      BlankIsUnmarked(g, more, b);
      BlankKeeps(g, more, header, b, size, order, MarkedBlocks());
      g := more;
    }

    /** Sets a link, or replaces one. Giving up a link to a marked block is harmless if no marked block
        that is lost with it stays in reach; and the child must not bring one back. */
    method SetLink(parent: Block, slot: nat, child: Block)
      requires Valid() && parent in g && child in g && slot < |parent.links|
      modifies this`g, parent`links
      ensures Valid() && parent.links == old(parent.links)[slot := child]
      ensures slot < |old(g)[parent].links| && IsOrder(parent.order, |old(g)[parent].links|)
      ensures g == old(g)[parent := Relinked(old(g)[parent], slot, child, parent.order)]
      ensures MarkedBlocks() == old(MarkedBlocks()) && old(parent.links)[slot] == old(g)[parent].links[slot]
      ensures var was := old(parent.links)[slot];
              old(Kept()) && (was == null || was !in MarkedBlocks()) ==> Kept()
      ensures (old(Ready()) && BringsNoMark(old(g), header, child, MarkedBlocks()) &&
               LosesNoMark(old(g), g, header, old(parent.links)[slot], MarkedBlocks())) ==> Ready()
      ensures old(parent.links)[slot] == null ==>
                LosesNoMark(old(g), g, header, old(parent.links)[slot], MarkedBlocks())
      ensures g[parent].links == parent.links && g[parent].size == parent.size
    {
      hide Covered, Clearable, Closed, Marked, HasShape, IsOrder, Relinked, BringsNoMark, LosesNoMark;
      ghost var marks := Marks(g);
      MarksAreBlocks(g);
      ShapeSize(g[parent], parent.size, parent.links, parent.order);
      ghost var more := Relinks(g, header, parent, slot, child, parent.links, parent.order, Marked(marks));
      PutLink(parent, slot, child, more);
    }

    /** The update itself keeps the file well formed, and all marks. */
    method PutLink(parent: Block, slot: nat, child: Block, ghost more: Graph)
      requires Valid() && parent in g && slot < |parent.links| && parent in more && Closed(more)
      requires more == g[parent := more[parent]]
      requires HasShape(more[parent], parent.size, parent.links[slot := child], parent.order)
      modifies this`g, parent`links
      ensures Valid() && g == more && Marks(g) == old(Marks(g)) && parent.links == old(parent.links)[slot := child]
    {
      hide Closed, HasShape;
      parent.links := parent.links[slot := child];
      assert Marks(g) == old(Marks(g));
      g := more;
    }

    method PutExtraLink(parent: Block, child: Block?, ghost more: Graph)
      requires Valid() && parent in g && parent in more && Closed(more) && more == g[parent := more[parent]]
      requires HasShape(more[parent], parent.size + 8, parent.links + [child], parent.order + [|parent.links|])
      modifies this`g, parent`links, parent`order, parent`size
      ensures Valid() && g == more && Marks(g) == old(Marks(g))
      ensures parent.links == old(parent.links) + [child] && parent.size == old(parent.size) + 8
    {
      hide Closed, HasShape;
      parent.AddExtraLink(child);
      assert HasShape(more[parent], parent.size, parent.links, parent.order);
      assert Marks(g) == old(Marks(g));
      g := more;
    }

    /** Links a block behind the last one of the chain that begins at head. */
    method LinkBlock(head: Block, next: Block, ghost chain: seq<Block>)
      requires Valid() && Chain(g, chain) && chain[0] == head && next in g
      modifies this`g, Last(chain)`links
      ensures Valid() && Last(chain) in g && g == old(g)[Last(chain) := g[Last(chain)]]
      ensures Chained(old(g), chain, |chain| - 1) && g[Last(chain)].links == old(g)[Last(chain)].links[NEXT := next]
      ensures old(Kept()) ==> Kept()
      ensures old(Ready()) && BringsNoMark(old(g), header, next, old(MarkedBlocks())) ==> Ready()
      decreases |chain|
    {
      hide Covered, Clearable, Closed, Chain, Marked, Reached, BringsNoMark;
      ChainEnds(g, chain);
      if head.links[NEXT] != null {
        ChainShortens(g, chain);
        LinkBlock(head.links[NEXT], next, chain[1..]);
      } else {
        SetLink(head, NEXT, next);
      }
    }

    /** A new data group with its data block, linked behind the last one. The header and the data
        groups so far are a chain, and stay one. */
    method CreateDataGroup(ghost chain: seq<Block>) returns (group: Block, ghost data: Block)
      requires Valid() && Chain(g, chain) && chain[0] == header
      modifies this`g, Last(chain)`links
      ensures Valid() && fresh(group) && Chain(g, chain + [group])
      ensures fresh(data) && NewGroup(g, group, data)
      ensures forall b :: b in old(g) && b != Last(chain) ==> b in g && g[b] == old(g)[b]
      ensures group in Reached(g, header)
      ensures old(Kept()) ==> Kept()
      ensures old(Ready()) ==> Ready()
    {
      hide Covered, Clearable, Closed, Chain, Reached, BringsNoMark, Matches, Relinked, Reordered, IsOrder;
      ghost var before := g;
      GroupOrder();
      var block;
      group, block := CreateLinked(64, GROUP_ORDER, DATA, 24);
      data := block;
      GroupShape(data);
      assert NewGroup(g, group, data);
      ChainStays(before, g, chain);
      GroupBringsNothing(group, data);
      ghost var middle := g;
      LinkBlock(header, group, chain);
      ChainGrows(middle, g, chain, group);
      ChainIsReached(g, chain + [group]);
    }

    lemma GroupBringsNothing(b: Block, child: Block)
      requires Valid() && b in g && child in g && b.address == child.address == 0 && !b.serialized && !child.serialized
      requires g[b].links == NoLinks(4)[DATA := child] && g[child].links == []
      ensures BringsNoMark(g, header, b, MarkedBlocks())
    {
      hide Reached;
      assert SameBlocks(g[b]) && SameBlocks(g[child]);
      PairReaches(g, b, child);
    }

    /** Adds a link, which takes eight more bytes. */
    method AddExtraLink(parent: Block, child: Block?)
      requires Valid() && parent in g && (child != null ==> child in g)
      modifies this`g, parent`links, parent`order, parent`size
      ensures Valid() && g == old(g)[parent := Extended(old(g)[parent], child)]
      ensures parent.links == old(parent.links) + [child] && parent.size == old(parent.size) + 8
      ensures old(Kept()) ==> Kept()
      ensures old(Ready()) && (child == null || BringsNoMark(old(g), header, child, old(MarkedBlocks()))) ==> Ready()
    {
      hide Covered, Clearable, Closed, Marked, HasShape, IsOrder, Extended, BringsNoMark;
      ghost var marks := Marks(g);
      MarksAreBlocks(g);
      ShapeSize(g[parent], parent.size, parent.links, parent.order);
      ghost var more := AddsLink(g, header, parent, child, parent.links, parent.order, Marked(marks));
      PutExtraLink(parent, child, more);
    }

    /** Lays the file out and writes it. It never fails, and every block starts at its address, counted
        from where the file starts in the stream; the file is sound exactly if the file was ready. */
    method WriteFileToStream(stream: Stream) returns (ok: bool, written: nat)
      requires Valid()
      modifies id`address, id`serialized, g.Keys`address, g.Keys`serialized, stream
      ensures Valid() && ok && g == old(g)
      ensures |stream.log| >= |old(stream.log)| && stream.log[..|old(stream.log)|] == old(stream.log)
      ensures var log := stream.log[|old(stream.log)|..];
              (SoundFile(g, id, header, log) <==> old(Ready())) && written == Length(log) &&
              forall i :: 0 <= i < |log| ==> log[i].block.address == Offset(log, i)
      ensures old(Ready()) ==>
                Logged(g, id, header, id.size, {}, Addresses(g), stream.log[|old(stream.log)|..])
      ensures old(Ready()) ==> Ready() && Reached(g, header) <= MarkedBlocks()
      ensures old(Kept()) ==> Kept()
    {
      hide SoundFile, Covered, Clearable, LaidOut, Visit, Closed, Length, Offset, Reached, Passed, HasShape, Logged;
      ghost var log := stream.log;
      var base := PlaceId();
      ghost var m;
      var next;
      m, next := PlaceHeader(base);
      ok, written := WriteId(stream);
      var more;
      ok, more := WriteHeader(stream, base, next, m, log);
      written := written + more;
      PassConcludes(m, base, stream.log[|log|..]);
    }

    lemma PassConcludes(m: set<Block>, base: nat, file: seq<Record>)
      requires Formed() && header !in m && m <= g.Keys && Passed(g, header, m, MarkedBlocks())
      requires Logged(g, id, header, base, m, Addresses(g), file)
      ensures m !! Reached(g, header) ==> Ready() && Reached(g, header) <= MarkedBlocks()
      ensures m !! Reached(g, header) ==> Logged(g, id, header, base, {}, Addresses(g), file)
      ensures m == {} ==> Kept()
    {
      hide Logged, Passed, Reached, Closed, Matches, Clearable, Covered;
      if m !! Reached(g, header) {
        PassIsClearable(g, header, m, MarkedBlocks());
        LoggedAll(g, id, header, base, m, Addresses(g), file);
      }
    }

    /** The first file written is the id block, the header, the file history and its comment, with the
        links that lead from each to the next. */
    static method FirstFile(comment: nat) returns (file: Mdf4File, stream: Stream)
      requires comment > 0
      ensures fresh(file) && fresh(stream) && file.Valid()
      ensures exists history, text :: NewFile(file.g, file.header, history, text, comment) &&
                stream.log == [Record(file.id, 64, []), Record(file.header, 104, [0, 168, 0, 0, 0, 0]),
                               Record(history, 56, [0, 224]), Record(text, 24 + comment, [])]
    {
      hide Covered, Clearable, Closed, Reached, Marked, HasShape, IsOrder, Relinked, SoundFile, Length, Offset, Visit,
           Matches, Paired, Marks, Records, NewFile, Logged;
      file := new Mdf4File(comment);
      ghost var history, text :| NewFile(file.g, file.header, history, text, comment);
      stream := new Stream();
      var ok, written := file.WriteFileToStream(stream);
      assert stream.log[0..] == stream.log;
      file.NewFileWritten(history, text, comment, stream.log);
    }

    lemma NewFileWritten(history: Block, text: Block, comment: nat, log: seq<Record>)
      requires Valid() && NewFile(g, header, history, text, comment) && id.size == 64
      requires Logged(g, id, header, 64, {}, Addresses(g), log)
      requires forall i :: 0 <= i < |log| ==> log[i].block.address == Offset(log, i)
      ensures log == [Record(id, 64, []), Record(header, 104, [0, 168, 0, 0, 0, 0]), Record(history, 56, [0, 224]),
                      Record(text, 24 + comment, [])]
    {
      hide Closed, Visit, Matches, Offset, Paired;
      NewFileOrder(g, header, history, text, comment);
      forall i | 1 <= i < |log|
        ensures log[i].block in Addresses(g) && Addresses(g)[log[i].block] == Offset(log, i)
      {
        assert log[i].block in [header, history, text];
      }
      NewFileLog(g, id, header, history, text, comment, Addresses(g), log);
    }

    /** A file that is not sound when it is written again: the link to a block has been replaced by one
        to a new block, which links to it. */
    static method StaleFile() returns (file: Mdf4File, stream: Stream)
      ensures fresh(file) && fresh(stream) && file.Valid()
      ensures !SoundFile(file.g, file.id, file.header, stream.log)
    {
      hide Covered, Clearable, Closed, Reached, Marked, BringsNoMark, LosesNoMark, HasShape, IsOrder, Relinked,
           SoundFile, Length, Offset, Visit, Matches, Paired, Marks;
      ghost var before;
      var a;
      file, a, before := WrittenFile();
      file.Detour(a, before);
      stream := new Stream();
      var ok, written := file.WriteFileToStream(stream);
      assert stream.log[0..] == stream.log;
    }

    /** A file that has been written with a block that its header links to. */
    static method WrittenFile() returns (file: Mdf4File, a: Block, ghost before: Graph)
      ensures fresh(file) && fresh(file.id) && fresh(file.g.Keys) && file.Valid()
      ensures file.header in before && file.LinksNew(a, before) && a in file.MarkedBlocks()
    {
      hide Covered, Clearable, Closed, Reached, Marked, BringsNoMark, LosesNoMark, HasShape, IsOrder, Relinked,
           SoundFile, Length, Offset, Visit, Matches, Paired, Marks;
      file, a, before := LinkedFile();
      file.KeptIsReady();
      file.NewIsReached(a, before);
      var stream := new Stream();
      var ok, written := file.WriteFileToStream(stream);
    }

    static method LinkedFile() returns (file: Mdf4File, a: Block, ghost before: Graph)
      ensures fresh(file) && fresh(file.id) && fresh(file.g.Keys) && file.Valid() && file.Kept()
      ensures file.header in before && file.LinksNew(a, before)
    {
      hide Covered, Clearable, Closed, Reached, Marked, BringsNoMark, LosesNoMark, HasShape, IsOrder, Relinked,
           SoundFile, Length, Offset, Visit, Matches, Paired, Marks;
      file := new Mdf4File(1);
      before := file.g;
      file.HeaderForm();
      ghost var history, text :| NewFile(file.g, file.header, history, text, 1);
      NoOrder();
      a := file.CreateBlock(24, []);
      file.SetLink(file.header, EVENT, a);
    }

    lemma NewIsReached(a: Block, before: Graph)
      requires Formed() && header in before && LinksNew(a, before)
      ensures a in Reached(g, header)
    {
      hide Reached;
      LinkIsReached(g, header, EVENT);
    }

    lemma HeaderForm()
      requires Formed()
      ensures Closed(g) && HasShape(g[header], g[header].size, g[header].links, header.order)
      ensures g[header].links == header.links
    {
    }

    /** The header links to a, which is not among the blocks before, and nothing else has changed. */
    ghost predicate LinksNew(a: Block, before: Graph)
      requires header in before
      reads this, header
    {
      Closed(before) && a !in before && g.Keys == before.Keys + {a} &&
      (forall x :: x in before && x != header ==> g[x] == before[x]) &&
      HasShape(before[header], before[header].size, before[header].links, header.order) &&
      EVENT < |before[header].links| && IsOrder(header.order, |before[header].links|) &&
      g[header] == Relinked(before[header], EVENT, a, header.order)
    }

    /** Replaces that link by one to a new block, which links to a. */
    method Detour(a: Block, ghost before: Graph)
      requires Valid() && header in before && LinksNew(a, before) && a in MarkedBlocks()
      modifies this`g, header`links
      ensures Valid() && fresh(g.Keys - old(g.Keys)) && !Ready()
    {
      hide Covered, Clearable, Closed, Reached, Marked, BringsNoMark, LosesNoMark, HasShape, IsOrder, Relinked,
           SoundFile, Length, Offset, Visit, Matches, Paired, Marks;
      UnitOrder();
      HeaderForm();
      var b := CreateBlock(32, [0]);
      RelinkedTwice(before[header], EVENT, a, b, header.order);
      EmptySlot(1, 0);
      assert a in g && |b.links| == 1;
      SetLink(b, 0, a);
      SetLink(header, EVENT, b);
      IsStale(before, a, b);
    }

    lemma IsStale(before: Graph, a: Block, b: Block)
      requires Formed() && Closed(before) && header in before && a !in before && b !in before
      requires g.Keys == before.Keys + {a, b} && a in MarkedBlocks() && b !in MarkedBlocks()
      requires forall x :: x in before && x != header ==> g[x] == before[x]
      requires EVENT < |before[header].links| && IsOrder(header.order, |before[header].links|)
      requires HasShape(before[header], before[header].size, before[header].links, header.order)
      requires g[header] == Relinked(before[header], EVENT, b, header.order)
      requires |g[b].links| > 0 && g[b].links[0] == a
      ensures !Ready()
    {
      hide Closed, Clearable, HasShape, IsOrder, Relinked, Marked;
      RelinkedChildren(before[header], EVENT, b, header.order);
      assert SameBlocks(g[b]) by { HasSameBlocks(g, b); }
      HiddenBehind(before, g, header, a, b, MarkedBlocks());
    }

    method WriteHeader(stream: Stream, ghost base: nat, ghost next: nat, ghost m: set<Block>, ghost log: seq<Record>)
      returns (ok: bool, written: nat)
      requires Formed() && header !in m && Serialized(g) == m && Passed(g, header, m, Addressed(Addresses(g)))
      requires LaidOut(g, m, Visit(g, header, m), base, next, Addresses(g))
      requires stream.log == log + [Record(id, base, [])]
      modifies g.Keys`serialized, stream
      ensures Valid() && ok && |stream.log| >= |log| && stream.log[..|log|] == log
      ensures Passed(g, header, m, MarkedBlocks())
      ensures var file := stream.log[|log|..];
              (SoundFile(g, id, header, file) <==> m !! Reached(g, header)) && base + written == Length(file) &&
              Logged(g, id, header, base, m, Addresses(g), file) &&
              forall i :: 0 <= i < |file| ==> file[i].block.address == Offset(file, i)
    {
      hide SoundFile, LaidOut, Outcome, Visit, Closed, Length, Offset, Reached, Passed, HasShape, Logged;
      ghost var at := Addresses(g);
      ok, written := header.WriteToStream(stream, g);
      assert Addresses(g) == at;
      PassIsSoundIff(g, id, header, base, next, m, at, ok, written, Serialized(g), log, stream.log);
      SameMarksPair(g);
    }

    method PlaceId() returns (next: nat)
      requires Formed()
      modifies id`address, id`serialized
      ensures Formed() && next == id.size && !id.serialized && Marks(g) == old(Marks(g))
    {
      hide Resolution, Clearance, Closed;
      ghost var alone := map[id := Shape(id.size, [], [])];
      LoneBlock(id, alone);
      assert Matches(alone) by { LoneShape(id.size); }
      hide HasShape;
      ghost var marks := Marks(alone);
      id.Reset(alone);
      LoneCleared(id, alone, marks, Marks(alone));
      assert id !in Marked(Marks(alone));
      ghost var before := Addresses(alone);
      next := id.ResolveAddress(0, alone);
      LoneResolved(id, alone, 0, next, before, Addresses(alone));
      assert Marks(g) == old(Marks(g));
    }

    /** Resets and places the header's blocks; m is what the reset leaves marked. */
    method PlaceHeader(base: nat) returns (ghost m: set<Block>, next: nat)
      requires Valid() && base > 0
      modifies g.Keys`address, g.Keys`serialized
      ensures Formed() && g == old(g) && header !in m && m <= g.Keys && Serialized(g) == m
      ensures Passed(g, header, m, Addressed(Addresses(g)))
      ensures LaidOut(g, m, Visit(g, header, m), base, next, Addresses(g))
      ensures (m !! Reached(g, header) <==> old(Ready())) && (old(Kept()) ==> m == {})
    {
      hide Resolution, Clearance, Closed, LaidOut, Visit, Clearable, Covered, Reached, HasShape;
      ghost var marks := Marks(g);
      header.Reset(g);
      ResetIsComplete(g, header, marks, Marks(g));
      ClearedStaysPaired(g, header, marks, Marks(g));
      PairedMarksAgree(g);
      m := Serialized(g);
      ghost var before := Addresses(g);
      next := header.ResolveAddress(base, g);
      ResolvesAll(g, header, base, next, before, Addresses(g));
      assert Serialized(g) == m;
    }

    method WriteId(stream: Stream) returns (ok: bool, written: nat)
      requires Formed() && !id.serialized
      modifies id`serialized, stream
      ensures Formed() && ok && written == id.size && stream.log == old(stream.log) + [Record(id, id.size, [])]
      ensures Serialized(g) == old(Serialized(g)) && Addresses(g) == old(Addresses(g))
    {
      hide Outcome, Closed;
      ghost var alone := map[id := Shape(id.size, [], [])];
      LoneBlock(id, alone);
      assert Matches(alone) by { LoneShape(id.size); }
      hide HasShape;
      ghost var before, log, serialized := Serialized(alone), stream.log, Serialized(g);
      ok, written := id.WriteToStream(stream, alone);
      LoneWritten(id, alone, Addresses(alone), ok, written, before, Serialized(alone), log, stream.log);
      assert Serialized(g) == serialized;
    }
  }

  lemma LoneHeader(g: Graph, header: Block, size: nat, order: seq<nat>)
    requires size > 0 && IsOrder(order, |order|)
    requires g == map[header := Shape(size, NoLinks(|order|), NoLinks(|order|))]
    ensures Closed(g) && HasShape(g[header], size, NoLinks(|order|), order) && Covered(g, header, {})
  {
    ReorderedEmpty(order);
  }

  lemma LoneShape(size: nat)
    requires size > 0
    ensures HasShape(Shape(size, [], []), size, [], [])
  {
    assert Reordered([], []) == [];
  }

  lemma SameMarksPair(g: Graph)
    requires Serialized(g) == Addressed(Addresses(g))
    ensures Paired(g) && Marked(Marks(g)) == Serialized(g)
  {
    assert forall b :: b in g ==> (b in Serialized(g) <==> b.serialized);
    assert forall b :: b in g ==> (b in Addressed(Addresses(g)) <==> b.address != 0);
  }

  lemma PairedMarksAgree(g: Graph)
    requires Paired(g)
    ensures Marked(Marks(g)) == Serialized(g) == Addressed(Addresses(g))
  {
  }

  lemma ClearedStaysPaired(g: Graph, root: Block, before: map<Block, (nat, bool)>, now: map<Block, (nat, bool)>)
    requires Closed(g) && root in g && Clearance(g, root, before, now) && now == Marks(g)
    requires forall b :: b in before ==> (before[b].0 != 0 <==> before[b].1)
    ensures Paired(g)
  {
    forall b | b in g
      ensures b.address != 0 <==> b.serialized
    {
      assert now[b] == (b.address, b.serialized);
      assert b in Marked(now) ==> now[b] == before[b];
    }
  }

  lemma NoSlots()
    ensures NoLinks(0) == []
  {
  }

  lemma EmptySlot(slots: nat, slot: nat)
    requires slot < slots
    ensures |NoLinks(slots)| == slots && NoLinks(slots)[slot] == null
  {
  }

  lemma ShapeSize(x: Shape, size: nat, links: seq<Block?>, order: seq<nat>)
    requires HasShape(x, size, links, order)
    ensures x.size == size && x.links == links
  {
  }

  lemma BlankIsUnmarked(g: Graph, more: Graph, b: Block)
    requires b !in g && more.Keys == g.Keys + {b} && b.address == 0 && !b.serialized
    ensures Marked(Marks(more)) == Marked(Marks(g)) && b !in Marked(Marks(more))
  {
  }

  lemma HasSameBlocks(g: Graph, b: Block)
    requires Closed(g) && b in g
    ensures SameBlocks(g[b])
  {
  }

  lemma LinkIsReached(g: Graph, root: Block, slot: nat)
    requires Closed(g) && root in g && slot < |g[root].links| && g[root].links[slot] != null
    ensures g[root].links[slot] in Reached(g, root)
  {
    VisitEncloses(g, root, {});
    assert root in Reached(g, root);
    assert g[root].links[slot] in g[root].children;
  }

  lemma RelinkedTwice(x: Shape, slot: nat, a: Block, b: Block, order: seq<nat>)
    requires slot < |x.links| && HasShape(x, x.size, x.links, order)
    ensures |Relinked(x, slot, a, order).links| == |x.links| && IsOrder(order, |x.links|)
    ensures Relinked(Relinked(x, slot, a, order), slot, b, order) == Relinked(x, slot, b, order)
  {
    assert x.links[slot := a][slot := b] == x.links[slot := b];
  }

  lemma HeaderShape(history: Block)
    ensures IsOrder(HEADER_ORDER, 6)
    ensures Relinked(Shape(104, NoLinks(6), NoLinks(6)), HISTORY, history, HEADER_ORDER) ==
            Shape(104, [null, history, null, null, null, null], [null, history, null, null, null, null])
  {
    HeaderOrder();
    var links: seq<Block?> := [null, history, null, null, null, null];
    assert NoLinks(6)[1 := history] == links;
    assert Reordered(links, HEADER_ORDER) == links;
  }

  lemma HistoryShape(text: Block)
    ensures IsOrder(HISTORY_ORDER, 2)
    ensures Relinked(Shape(56, NoLinks(2), NoLinks(2)), COMMENT, text, HISTORY_ORDER) ==
            Shape(56, [null, text], [text, null])
  {
    HistoryOrder();
    var links: seq<Block?> := [null, text];
    assert NoLinks(2)[1 := text] == links;
    assert Reordered(links, HISTORY_ORDER) == [text, null];
  }

  lemma GroupShape(data: Block)
    ensures IsOrder(GROUP_ORDER, 4)
    ensures Relinked(Shape(64, NoLinks(4), NoLinks(4)), DATA, data, GROUP_ORDER) ==
            Shape(64, [null, null, data, null], [null, null, data, null])
  {
    GroupOrder();
    var links: seq<Block?> := [null, null, data, null];
    assert NoLinks(4)[2 := data] == links;
    assert Reordered(links, GROUP_ORDER) == links;
  }

  lemma MarksAreBlocks(g: Graph)
    ensures Marked(Marks(g)) <= g.Keys
  {
  }

  lemma LinkIsIn(g: Graph, b: Block, slot: nat)
    requires Closed(g) && b in g && slot < |g[b].links| && g[b].links[slot] != null
    ensures g[b].links[slot] in g
  {
  }
}
