/** Finding the branches of a function by a linear sweep, and its basic blocks. */
module Analysis {
  import opened Options
  import opened Words
  import opened InstructionSet

  datatype BranchKind = Conditional | UnconditionalJmp | Call | Return | IndirectJump | IndirectCall

  /** target is 0 when only the processor knows it. */
  datatype BranchSite = BranchSite(address: nat, next: nat, target: nat, kind: BranchKind, backEdge: bool)

  datatype FunctionRange = FunctionRange(start: nat, end: nat)

  function Resolve(f: Form, a: nat): Option<nat> {
    if f.relative.None? then None else Some((a + f.length + f.relative.value) % WORD)
  }

  /** The kind and the target of a branch; a conditional branch without a direct target is not taken for one. */
  function Classify(f: Form, a: nat): Option<(BranchKind, nat)> {
    var t := Resolve(f, a);
    match f.category
    case ConditionalBranch => if t.Some? then Some((Conditional, t.value)) else None
    case UnconditionalBranch => if t.Some? then Some((UnconditionalJmp, t.value)) else Some((IndirectJump, 0))
    case CallBranch => if t.Some? then Some((Call, t.value)) else Some((IndirectCall, 0))
    case ReturnBranch => Some((Return, 0))
    case Plain => None
  }

  function SiteAt(f: Form, start: nat, a: nat): Option<BranchSite> {
    var c := Classify(f, a);
    if c.None? then None
    else
      var (kind, target) := c.value;
      Some(BranchSite(a, a + f.length, target, kind,
                      target != 0 && start <= target < a && (kind == Conditional || kind == UnconditionalJmp)))
  }

  /** The instruction at an offset of the function's bytes. */
  function At(isa: Isa, b: seq<Byte>, off: nat): Option<Form> {
    if off >= |b| then None
    else if isa.decode(b[off..]).Some? && isa.decode(b[off..]).value.length >= 1 then isa.decode(b[off..])
    else None
  }

  /** The branches from an offset on, up to the first byte that does not decode. */
  function Branches(isa: Isa, b: seq<Byte>, start: nat, off: nat): seq<BranchSite>
    decreases |b| - off
  {
    var f := At(isa, b, off);
    if f.None? then []
    else
      var site, rest := SiteAt(f.value, start, start + off), Branches(isa, b, start, off + f.value.length);
      if site.Some? then [site.value] + rest else rest
  }

  method AnalyzeFunction(isa: Isa, b: seq<Byte>, start: nat) returns (branches: seq<BranchSite>)
    requires Lawful(isa)
    ensures branches == Branches(isa, b, start, 0)
  {
    var off := 0;
    branches := [];
    while off < |b|
      invariant branches + Branches(isa, b, start, off) == Branches(isa, b, start, 0)
      decreases |b| - off
    {
      var d := isa.decode(b[off..]);
      if d.None? {
        break;
      }
      DecodeBounds(isa, b[off..]);
      var site := SiteAt(d.value, start, start + off);
      if site.Some? {
        assert (branches + [site.value]) + Branches(isa, b, start, off + d.value.length) ==
               branches + ([site.value] + Branches(isa, b, start, off + d.value.length));
        branches := branches + [site.value];
      }
      off := off + d.value.length;
    }
    assert Branches(isa, b, start, off) == [];
  }

  // ---- instruction boundaries ----------------------------------------------------------------------------------------------

  /** Decoding one instruction after the other from one offset arrives at another. */
  predicate Reaches(isa: Isa, b: seq<Byte>, from: nat, to: nat)
    decreases |b| - from
  {
    from == to || (from < to && At(isa, b, from).Some? && Reaches(isa, b, from + At(isa, b, from).value.length, to))
  }

  lemma {:induction false} ReachesForward(isa: Isa, b: seq<Byte>, from: nat, to: nat)
    requires Reaches(isa, b, from, to)
    ensures from <= to
  {
  }

  /** Two boundaries of the same sweep lie on one path. */
  lemma {:induction false} ReachesOn(isa: Isa, b: seq<Byte>, from: nat, x: nat, y: nat)
    requires Reaches(isa, b, from, x) && Reaches(isa, b, from, y) && x <= y
    ensures Reaches(isa, b, x, y)
    decreases |b| - from
  {
    if from != x {
      ReachesOn(isa, b, from + At(isa, b, from).value.length, x, y);
    }
  }

  lemma {:induction false} ReachesNext(isa: Isa, b: seq<Byte>, from: nat, x: nat)
    requires Reaches(isa, b, from, x) && At(isa, b, x).Some?
    ensures Reaches(isa, b, from, x + At(isa, b, x).value.length)
    decreases |b| - from
  {
    if from != x {
      ReachesNext(isa, b, from + At(isa, b, from).value.length, x);
      ReachesForward(isa, b, from + At(isa, b, from).value.length, x);
    }
  }

  /** A branch found by the sweep is an instruction of it. */
  lemma {:induction false} BranchIsReached(isa: Isa, b: seq<Byte>, start: nat, off: nat, site: BranchSite)
    requires site in Branches(isa, b, start, off)
    ensures site.address >= start && Reaches(isa, b, off, site.address - start)
    ensures At(isa, b, site.address - start).Some? && SiteAt(At(isa, b, site.address - start).value, start, site.address) == Some(site)
    decreases |b| - off
  {
    var f := At(isa, b, off).value;
    if SiteAt(f, start, start + off) != Some(site) {
      BranchIsReached(isa, b, start, off + f.length, site);
    }
  }
}

module Blocks {
  import opened Words
  import opened Processor
  import opened InstructionSet
  import opened Relocation
  import opened Instrumentation
  import opened Analysis
  import Maps = AddressMaps

  type Block = Maps.Block

  predicate Splits(kind: BranchKind) {
    kind != Call && kind != IndirectCall && kind != Return
  }

  predicate Leads(fn: FunctionRange, branches: seq<BranchSite>, a: nat) {
    || a == fn.start
    || (exists i :: 0 <= i < |branches| && LedBy(fn, branches[i], a))
  }

  /** The address follows a jump of the function, or is the target of a direct branch within it. */
  predicate LedBy(fn: FunctionRange, b: BranchSite, a: nat) {
    || (Splits(b.kind) && b.next < fn.end && a == b.next)
    || (fn.start <= b.target < fn.end && a == b.target)
  }

  /** The blocks lie end to end from the function's start to its end, and start exactly at the leaders. */
  ghost predicate Tiles(fn: FunctionRange, branches: seq<BranchSite>, blocks: seq<Block>) {
    && blocks != [] && blocks[0].start == fn.start && blocks[|blocks| - 1].end == fn.end
    && (forall i :: 0 <= i < |blocks| ==> blocks[i].start < blocks[i].end)
    && (forall i :: 0 <= i < |blocks| - 1 ==> blocks[i].end == blocks[i + 1].start)
    && (forall a :: Leads(fn, branches, a) <==> exists i :: 0 <= i < |blocks| && blocks[i].start == a)
  }

  predicate Ascending(s: seq<nat>) {
    forall i, j :: 0 <= i < j < |s| ==> s[i] < s[j]
  }

  method LeastOf(s: set<nat>) returns (m: nat)
    requires s != {}
    ensures m in s && forall x :: x in s ==> m <= x
  {
    m :| m in s;
    var rest := s - {m};
    while rest != {}
      invariant m in s && rest <= s
      invariant forall x :: x in s && x !in rest ==> m <= x
      decreases rest
    {
      var x :| x in rest;
      rest := rest - {x};
      if x < m {
        m := x;
      }
    }
  }

  /** The elements of an ordered set, in order. */
  method Sorted(s: set<nat>) returns (r: seq<nat>)
    ensures Ascending(r) && forall x :: x in r <==> x in s
  {
    r := [];
    var rest := s;
    while rest != {}
      invariant rest <= s && Ascending(r)
      invariant forall x :: x in r <==> x in s && x !in rest
      invariant forall x, y :: x in r && y in rest ==> x < y
      decreases rest
    {
      var m := LeastOf(rest);
      forall i | 0 <= i < |r| ensures r[i] < m {
        assert r[i] in r;
      }
      r, rest := r + [m], rest - {m};
    }
  }

  method DiscoverBlocks(fn: FunctionRange, branches: seq<BranchSite>) returns (blocks: seq<Block>)
    requires 0 < fn.start < fn.end
    requires forall i :: 0 <= i < |branches| ==> fn.start <= branches[i].address < branches[i].next
    ensures Tiles(fn, branches, blocks) && Straight(branches, blocks) && Justified(fn, branches, blocks)
  {
    var leaders := {fn.start};
    for k := 0 to |branches|
      invariant forall a :: a in leaders <==> a == fn.start || exists i :: 0 <= i < k && LedBy(fn, branches[i], a)
    {
      var b := branches[k];
      ghost var before := leaders;
      if Splits(b.kind) && b.next < fn.end {
        leaders := leaders + {b.next};
      }
      if fn.start <= b.target < fn.end {
        leaders := leaders + {b.target};
      }
      assert forall a :: a in leaders <==> a in before || LedBy(fn, b, a);
    }
    var sorted := Sorted(leaders);
    LeadersInside(fn, branches, sorted);
    blocks := [];
    for i := 0 to |sorted|
      invariant |blocks| == i
      invariant forall k :: 0 <= k < i ==>
        blocks[k].start == sorted[k] && blocks[k].end == if k + 1 < |sorted| then sorted[k + 1] else fn.end
    {
      blocks := blocks + [Maps.Block(sorted[i], if i + 1 < |sorted| then sorted[i + 1] else fn.end)];
    }
    forall i | 0 <= i < |blocks| ensures blocks[i].start < blocks[i].end {
      assert i + 1 < |sorted| ==> sorted[i] < sorted[i + 1];
    }
    forall a ensures Leads(fn, branches, a) <==> exists i :: 0 <= i < |blocks| && blocks[i].start == a {
      assert a in leaders <==> a in sorted;
    }
    TilesAreStraight(fn, branches, blocks);
    TilesAreJustified(fn, branches, blocks);
  }

  lemma LeadersInside(fn: FunctionRange, branches: seq<BranchSite>, sorted: seq<nat>)
    requires 0 < fn.start < fn.end && Ascending(sorted)
    requires forall i :: 0 <= i < |branches| ==> fn.start <= branches[i].address < branches[i].next
    requires forall a :: a in sorted <==> Leads(fn, branches, a)
    ensures sorted != [] && sorted[0] == fn.start && forall i :: 0 <= i < |sorted| ==> sorted[i] < fn.end
  {
    assert fn.start in sorted;
    forall i | 0 <= i < |sorted| ensures fn.start <= sorted[i] < fn.end {
      assert sorted[i] in sorted;
    }
  }

  // ---- where detours may not cut ---------------------------------------------------------------------------------------------

  function Size(fn: FunctionRange): nat
    requires fn.start <= fn.end
  {
    fn.end - fn.start
  }

  /** The bytes of a function. */
  function Body(image: Memory, fn: FunctionRange): seq<Byte>
    requires fn.start <= fn.end < WORD
  {
    Fetch(image, fn.start, Size(fn))
  }

  ghost predicate OnBoundary(isa: Isa, image: Memory, fn: FunctionRange, a: nat)
    requires fn.start <= fn.end < WORD
  {
    fn.start <= a && Reaches(isa, Body(image, fn), 0, a - fn.start)
  }

  /** The displaced instructions are instructions of the function's sweep, when their block starts at one. */
  lemma {:induction false} LeaderIsSwept(isa: Isa, image: Memory, fn: FunctionRange, b: Block, at: nat, off: nat)
    requires Lawful(isa) && fn.start <= b.start <= b.end <= fn.end < WORD
    requires at < DETOUR && at <= |Head(image, b.start, b.end)| && Grow(isa, Head(image, b.start, b.end), b.end - b.start, at).Leader?
    requires at <= off < at + Total(Grow(isa, Head(image, b.start, b.end), b.end - b.start, at).forms)
    requires var base := b.start - fn.start; Reaches(isa, Body(image, fn), base + at, base + off)
    ensures At(isa, Body(image, fn), b.start - fn.start + off).Some? ==> At(isa, Body(image, fn), b.start - fn.start + off).value.category.Plain?
    decreases DETOUR - at
  {
    hide Lawful;
    var buf, body, base := Head(image, b.start, b.end), Body(image, fn), b.start - fn.start;
    var f := isa.decode(buf[at..]).value;
    DecodeBounds(isa, buf[at..]);
    assert buf[at..][..f.length] == body[base + at..][..f.length];
    DecodeLocal(isa, buf[at..], body[base + at..]);
    var rest := Grow(isa, buf, b.end - b.start, at + f.length);
    assert Grow(isa, buf, b.end - b.start, at).forms[1..] == rest.forms;
    assert At(isa, body, base + at).Some? && At(isa, body, base + at).value == f;
    hide Head, Body;
    if off > at {
      ReachesForward(isa, body, base + at + f.length, base + off);
      hide Grow, At;
      LeaderIsSwept(isa, image, fn, b, at + f.length, off);
    }
  }

  /** The sites the analysis found in a function. */
  function SitesOf(isa: Isa, image: Memory, fn: FunctionRange): seq<BranchSite>
    requires fn.start <= fn.end < WORD
  {
    Branches(isa, Body(image, fn), fn.start, 0)
  }

  /**
   For a function whose direct targets within it lie on instruction boundaries, a detour never covers more than its block,
   and no direct branch of the function goes to, and no call of it comes back to, the inside of a detour.
   */
  lemma DetourIsSafe(cfg: Config, mark: nat, image: Memory, fn: FunctionRange, blocks: seq<Block>, k: nat, site: BranchSite)
    requires Lawful(cfg.isa) && 0 < fn.start < fn.end < WORD && Tiles(fn, SitesOf(cfg.isa, image, fn), blocks) && k < |blocks|
    requires blocks[k].start <= blocks[k].end < WORD && Attempt(cfg, mark, image, blocks[k].start, blocks[k].end).Done?
    requires forall i :: 0 <= i < |SitesOf(cfg.isa, image, fn)| && fn.start <= SitesOf(cfg.isa, image, fn)[i].target < fn.end ==>
      OnBoundary(cfg.isa, image, fn, SitesOf(cfg.isa, image, fn)[i].target)
    requires site in SitesOf(cfg.isa, image, fn)
    ensures var start, n := blocks[k].start, Total(Attempt(cfg, mark, image, blocks[k].start, blocks[k].end).forms);
      && DETOUR <= n <= 19 && start + n <= blocks[k].end <= fn.end
      && !(start < site.target < start + n)
      && (site.kind == Call || site.kind == IndirectCall ==> !(start < site.next < start + n))
  {
    var b := blocks[k];
    var p := Maps.DonePlacement(cfg, mark, image, b);
    BlocksInside(fn, SitesOf(cfg.isa, image, fn), blocks, k);
    BoundaryStart(cfg.isa, image, fn, blocks, k);
    NoTargetInside(fn, SitesOf(cfg.isa, image, fn), blocks, k, site);
    if (site.kind == Call || site.kind == IndirectCall) && b.start < site.next < b.start + Total(p.forms) {
      CallIsOutside(cfg.isa, image, fn, b, site);
    }
  }

  lemma BlocksInside(fn: FunctionRange, branches: seq<BranchSite>, blocks: seq<Block>, k: nat)
    requires Tiles(fn, branches, blocks) && k < |blocks|
    ensures fn.start <= blocks[k].start < blocks[k].end <= fn.end
    ensures forall j :: k < j < |blocks| ==> blocks[k].end <= blocks[j].start
  {
    BlocksAscend(fn, branches, blocks, 0, k);
    BlocksAscend(fn, branches, blocks, k, |blocks| - 1);
    forall j | k < j < |blocks| ensures blocks[k].end <= blocks[j].start {
      BlocksAscend(fn, branches, blocks, k, j);
    }
  }

  lemma {:induction false} BlocksAscend(fn: FunctionRange, branches: seq<BranchSite>, blocks: seq<Block>, i: nat, j: nat)
    requires Tiles(fn, branches, blocks) && i <= j < |blocks|
    ensures blocks[i].start <= blocks[j].start && blocks[i].end <= blocks[j].end && (i < j ==> blocks[i].end <= blocks[j].start)
    decreases j
  {
    if i < j {
      BlocksAscend(fn, branches, blocks, i, j - 1);
      assert blocks[j - 1].end == blocks[j].start;
    }
  }

  /** A target of the function starts a block, so it is inside no other. */
  lemma NoTargetInside(fn: FunctionRange, branches: seq<BranchSite>, blocks: seq<Block>, k: nat, site: BranchSite)
    requires Tiles(fn, branches, blocks) && k < |blocks| && site in branches && fn.start < fn.end
    ensures !(blocks[k].start < site.target < blocks[k].end)
  {
    BlocksInside(fn, branches, blocks, k);
    if fn.start <= site.target < fn.end {
      var i :| 0 <= i < |branches| && branches[i] == site;
      assert LedBy(fn, branches[i], site.target);
      assert Leads(fn, branches, site.target);
      var j :| 0 <= j < |blocks| && blocks[j].start == site.target;
      BlocksInside(fn, branches, blocks, j);
    }
  }

  /** Every block starts on an instruction boundary. */
  lemma BoundaryStart(isa: Isa, image: Memory, fn: FunctionRange, blocks: seq<Block>, k: nat)
    requires Lawful(isa) && 0 < fn.start < fn.end < WORD && Tiles(fn, SitesOf(isa, image, fn), blocks) && k < |blocks|
    requires forall i :: 0 <= i < |SitesOf(isa, image, fn)| && fn.start <= SitesOf(isa, image, fn)[i].target < fn.end ==>
      OnBoundary(isa, image, fn, SitesOf(isa, image, fn)[i].target)
    ensures OnBoundary(isa, image, fn, blocks[k].start)
  {
    hide Lawful;
    var branches, a := SitesOf(isa, image, fn), blocks[k].start;
    assert Leads(fn, branches, a);
    if a != fn.start {
      var i :| 0 <= i < |branches| && LedBy(fn, branches[i], a);
      if a == branches[i].next {
        BranchIsReached(isa, Body(image, fn), fn.start, 0, branches[i]);
        ReachesNext(isa, Body(image, fn), 0, branches[i].address - fn.start);
      }
    }
  }

  /** A call that comes back inside a leader would be one of the displaced instructions, which are not calls. */
  lemma CallIsOutside(isa: Isa, image: Memory, fn: FunctionRange, b: Block, site: BranchSite)
    requires Lawful(isa) && fn.start <= b.start <= b.end <= fn.end < WORD && OnBoundary(isa, image, fn, b.start)
    requires Grow(isa, Head(image, b.start, b.end), b.end - b.start, 0).Leader?
    requires site in SitesOf(isa, image, fn) && (site.kind == Call || site.kind == IndirectCall)
    ensures !(b.start < site.next < b.start + Total(Grow(isa, Head(image, b.start, b.end), b.end - b.start, 0).forms))
  {
    hide Lawful;
    var body, s, c := Body(image, fn), b.start - fn.start, site.address - fn.start;
    BranchIsReached(isa, body, fn.start, 0, site);
    ReachesNext(isa, body, 0, c);
    var n := Total(Grow(isa, Head(image, b.start, b.end), b.end - b.start, 0).forms);
    if c < s {
      ReachesOn(isa, body, 0, c, s);
      ReachesForward(isa, body, c + At(isa, body, c).value.length, s);
    } else if c < s + n {
      ReachesOn(isa, body, 0, s, c);
      LeaderIsSwept(isa, image, fn, b, 0, c - s);
    }
  }

  // ---- straight-line blocks ------------------------------------------------------------------------------------------------------

  /** No block goes on past a jump, conditional or not; calls and returns do not end one. */
  ghost predicate Straight(branches: seq<BranchSite>, blocks: seq<Block>) {
    forall k, i :: 0 <= k < |blocks| && 0 <= i < |branches| && blocks[k].start <= branches[i].address < blocks[k].end ==>
      (branches[i].kind == Conditional || branches[i].kind == UnconditionalJmp || branches[i].kind == IndirectJump ==>
         blocks[k].end <= branches[i].next)
  }

  /** A block starts at the function's start, at a direct target, or behind a jump; and wherever one of these is, one starts. */
  ghost predicate Justified(fn: FunctionRange, branches: seq<BranchSite>, blocks: seq<Block>) {
    && (forall k :: 0 <= k < |blocks| ==> blocks[k].start == fn.start || exists i :: 0 <= i < |branches| && Causes(branches[i], blocks[k].start))
    && (forall i, a: nat :: 0 <= i < |branches| && Causes(branches[i], a) && fn.start <= a < fn.end ==>
          exists k :: 0 <= k < |blocks| && blocks[k].start == a)
  }

  predicate Causes(b: BranchSite, a: nat) {
    || b.target == a
    || (b.next == a && (b.kind == Conditional || b.kind == UnconditionalJmp || b.kind == IndirectJump))
  }

  lemma TilesAreStraight(fn: FunctionRange, branches: seq<BranchSite>, blocks: seq<Block>)
    requires Tiles(fn, branches, blocks) && forall i :: 0 <= i < |branches| ==> fn.start <= branches[i].address < branches[i].next
    ensures Straight(branches, blocks)
  {
    forall k, i | 0 <= k < |blocks| && 0 <= i < |branches| && blocks[k].start <= branches[i].address < blocks[k].end
                  && (branches[i].kind == Conditional || branches[i].kind == UnconditionalJmp || branches[i].kind == IndirectJump)
      ensures blocks[k].end <= branches[i].next
    {
      BlocksInside(fn, branches, blocks, k);
      if branches[i].next < fn.end {
        assert LedBy(fn, branches[i], branches[i].next);
        assert Leads(fn, branches, branches[i].next);
        var j :| 0 <= j < |blocks| && blocks[j].start == branches[i].next;
        BlocksInside(fn, branches, blocks, j);
      }
    }
  }

  lemma TilesAreJustified(fn: FunctionRange, branches: seq<BranchSite>, blocks: seq<Block>)
    requires Tiles(fn, branches, blocks) && fn.start < fn.end
    requires forall i :: 0 <= i < |branches| ==> fn.start <= branches[i].address < branches[i].next
    ensures Justified(fn, branches, blocks)
  {
    forall k | 0 <= k < |blocks| && blocks[k].start != fn.start
      ensures exists i :: 0 <= i < |branches| && Causes(branches[i], blocks[k].start)
    {
      assert Leads(fn, branches, blocks[k].start);
      var i :| 0 <= i < |branches| && LedBy(fn, branches[i], blocks[k].start);
      assert Causes(branches[i], blocks[k].start);
    }
    forall i, a: nat | 0 <= i < |branches| && Causes(branches[i], a) && fn.start <= a < fn.end
      ensures exists k :: 0 <= k < |blocks| && blocks[k].start == a
    {
      assert LedBy(fn, branches[i], a);
      assert Leads(fn, branches, a);
    }
  }

  /** In a function whose direct targets lie on instruction boundaries, the block of a jump ends exactly behind it. */
  lemma JumpEndsBlock(isa: Isa, image: Memory, fn: FunctionRange, blocks: seq<Block>, k: nat, site: BranchSite)
    requires Lawful(isa) && 0 < fn.start < fn.end < WORD && Tiles(fn, SitesOf(isa, image, fn), blocks) && k < |blocks|
    requires forall i :: 0 <= i < |SitesOf(isa, image, fn)| && fn.start <= SitesOf(isa, image, fn)[i].target < fn.end ==>
      OnBoundary(isa, image, fn, SitesOf(isa, image, fn)[i].target)
    requires site in SitesOf(isa, image, fn) && blocks[k].start <= site.address < blocks[k].end
    requires site.kind == Conditional || site.kind == UnconditionalJmp || site.kind == IndirectJump
    ensures blocks[k].end == site.next
  {
    var branches, body, x := SitesOf(isa, image, fn), Body(image, fn), site.address - fn.start;
    SitesAdvance(isa, image, fn);
    TilesAreStraight(fn, branches, blocks);
    BranchIsReached(isa, body, fn.start, 0, site);
    DecodeBounds(isa, body[x..]);
    hide Lawful;
    var end := blocks[k].end;
    if k + 1 < |blocks| {
      BoundaryStart(isa, image, fn, blocks, k + 1);
      ReachesOn(isa, body, 0, x, end - fn.start);
      ReachesForward(isa, body, x + At(isa, body, x).value.length, end - fn.start);
    }
  }

  lemma SitesAdvance(isa: Isa, image: Memory, fn: FunctionRange)
    requires fn.start <= fn.end < WORD
    ensures forall i :: 0 <= i < |SitesOf(isa, image, fn)| ==> fn.start <= SitesOf(isa, image, fn)[i].address < SitesOf(isa, image, fn)[i].next
  {
    forall i | 0 <= i < |SitesOf(isa, image, fn)| ensures fn.start <= SitesOf(isa, image, fn)[i].address < SitesOf(isa, image, fn)[i].next {
      BranchIsReached(isa, Body(image, fn), fn.start, 0, SitesOf(isa, image, fn)[i]);
    }
  }
}
