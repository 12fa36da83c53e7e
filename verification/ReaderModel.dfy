/** Double-page grouping and navigation (`static/reader-model.js`). */
module ReaderModel {
  import opened Common

  /** A manifest page; a width or height of zero stands for an unknown one. */
  datatype Page = Page(number: int, width: nat, height: nat, spread: bool)

  /** A pairing anchor: anything JavaScript's `Number` makes a finite number of, or not. */
  datatype Anchor = Unusable | At(value: real)

  datatype Mode = Single | Double | Scroll

  type Group = seq<Page>

  /** At least five quarters as wide as high. */
  predicate Stitched(page: Page) {
    page.spread || (page.width != 0 && page.height != 0 && 4 * page.width >= 5 * page.height)
  }

  function Trunc(x: real): int {
    if x >= 0.0 then x.Floor else -((-x).Floor)
  }

  function PairingStart(anchor: Anchor): int {
    if anchor.At? && Trunc(anchor.value) > 2 then Trunc(anchor.value) else 2
  }

  // ---- Sorting by page number --------------------------------------------------------------

  function Insert(page: Page, pages: seq<Page>): seq<Page> {
    if pages == [] || page.number <= pages[0].number then [page] + pages else [pages[0]] + Insert(page, pages[1..])
  }

  /** The stable sort by page number. */
  function Ordered(pages: seq<Page>): seq<Page> {
    if pages == [] then [] else Insert(pages[0], Ordered(pages[1..]))
  }

  ghost predicate Ascending(pages: seq<Page>) {
    forall i, j :: 0 <= i < j < |pages| ==> pages[i].number <= pages[j].number
  }

  lemma {:induction false} InsertMembers(page: Page, pages: seq<Page>, p: Page)
    ensures p in Insert(page, pages) <==> p == page || p in pages
  {
    if pages != [] && page.number > pages[0].number {
      InsertMembers(page, pages[1..], p);
      assert pages == [pages[0]] + pages[1..];
    }
  }

  lemma {:induction false} InsertAscending(page: Page, pages: seq<Page>)
    requires Ascending(pages)
    ensures Ascending(Insert(page, pages))
  {
    if pages != [] && page.number > pages[0].number {
      InsertAscending(page, pages[1..]);
      var rest := Insert(page, pages[1..]);
      forall i | 0 <= i < |rest|
        ensures pages[0].number <= rest[i].number
      {
        InsertMembers(page, pages[1..], rest[i]);
      }
    }
  }

  lemma {:induction false} InsertCounts(page: Page, pages: seq<Page>)
    ensures multiset(Insert(page, pages)) == multiset(pages) + multiset{page}
  {
    if pages != [] && page.number > pages[0].number {
      InsertCounts(page, pages[1..]);
      assert pages == [pages[0]] + pages[1..];
    }
  }

  lemma {:induction false} OrderedSorts(pages: seq<Page>)
    ensures Ascending(Ordered(pages)) && multiset(Ordered(pages)) == multiset(pages)
  {
    if pages != [] {
      OrderedSorts(pages[1..]);
      InsertAscending(pages[0], Ordered(pages[1..]));
      InsertCounts(pages[0], Ordered(pages[1..]));
      assert pages == [pages[0]] + pages[1..];
    }
  }

  // ---- What a grouping must be -------------------------------------------------------------

  function Flatten(groups: seq<Group>): seq<Page> {
    if groups == [] then [] else groups[0] + Flatten(groups[1..])
  }

  /** A single page, or two facing pages neither of which is already a spread. */
  predicate Fits(group: Group) {
    |group| == 1 || (|group| == 2 && !Stitched(group[0]) && !Stitched(group[1]))
  }

  predicate Straddles(group: Group, anchor: int) {
    |group| == 2 && group[0].number < anchor <= group[1].number
  }

  ghost predicate Partition(pages: seq<Page>, groups: seq<Group>) {
    Flatten(groups) == pages && forall g :: g in groups ==> Fits(g)
  }

  /** The rules of a double-page layout: every page once and in order, the cover alone, stitched pages
      alone, no spread across the anchor. */
  ghost predicate Layout(pages: seq<Page>, anchor: int, groups: seq<Group>) {
    && Partition(pages, groups)
    && (groups != [] ==> |groups[0]| == 1)
    && forall g :: g in groups ==> !Straddles(g, anchor)
  }

  lemma {:induction false} FlattenJoin(a: seq<Group>, b: seq<Group>)
    ensures Flatten(a + b) == Flatten(a) + Flatten(b)
  {
    if a == [] {
      assert a + b == b;
    } else {
      assert (a + b)[1..] == a[1..] + b;
      FlattenJoin(a[1..], b);
    }
  }

  lemma FlattenLast(groups: seq<Group>)
    requires groups != []
    ensures Flatten(groups) == Flatten(groups[..|groups| - 1]) + groups[|groups| - 1]
  {
    var last := [groups[|groups| - 1]];
    FlattenJoin(groups[..|groups| - 1], last);
    assert groups == groups[..|groups| - 1] + last;
    assert Flatten(last) == last[0] + Flatten([]);
  }

  // ---- The two greedy runs -----------------------------------------------------------------

  /** Pairs from the front. */
  function Trailing(pages: seq<Page>): seq<Group> {
    if pages == [] then []
    else if Stitched(pages[0]) || |pages| == 1 || Stitched(pages[1]) then [[pages[0]]] + Trailing(pages[1..])
    else [[pages[0], pages[1]]] + Trailing(pages[2..])
  }

  /** Pairs from the back. */
  function Leading(pages: seq<Page>): seq<Group> {
    var n := |pages|;
    if n == 0 then []
    else if Stitched(pages[n - 1]) || n == 1 || Stitched(pages[n - 2]) then Leading(pages[..n - 1]) + [[pages[n - 1]]]
    else Leading(pages[..n - 2]) + [[pages[n - 2], pages[n - 1]]]
  }

  lemma {:induction false} TrailingPartitions(pages: seq<Page>)
    ensures Partition(pages, Trailing(pages))
  {
    if pages != [] {
      var taken := |Trailing(pages)[0]|;
      TrailingPartitions(pages[taken..]);
      assert Trailing(pages)[1..] == Trailing(pages[taken..]);
      assert pages == pages[..taken] + pages[taken..];
    }
  }

  lemma {:induction false} LeadingPartitions(pages: seq<Page>)
    ensures Partition(pages, Leading(pages))
    decreases |pages|
  {
    if pages != [] {
      var groups := Leading(pages);
      var last := |groups| - 1;
      var kept := |pages| - |groups[last]|;
      LeadingPartitions(pages[..kept]);
      assert groups[..last] == Leading(pages[..kept]);
      FlattenLast(groups);
      assert pages == pages[..kept] + pages[kept..];
    }
  }

  // ---- Fewest groups -----------------------------------------------------------------------

  lemma {:induction false} TrailingMonotone(pages: seq<Page>)
    requires pages != []
    ensures |Trailing(pages[1..])| <= |Trailing(pages)| <= 1 + |Trailing(pages[1..])|
  {
    if |pages| > 1 {
      assert pages[1..][1..] == pages[2..];
      TrailingMonotone(pages[1..]);
    }
  }

  lemma {:induction false} TrailingFewest(pages: seq<Page>, groups: seq<Group>)
    requires Partition(pages, groups)
    ensures |Trailing(pages)| <= |groups|
    decreases |groups|
  {
    if groups != [] {
      var g := groups[0];
      assert Fits(g) && pages[..|g|] == g && pages[|g|..] == Flatten(groups[1..]);
      TrailingFewest(pages[|g|..], groups[1..]);
      if |g| == 1 {
        TrailingMonotone(pages);
      } else {
        assert pages[0] == g[0] && pages[1] == g[1];
      }
    }
  }

  lemma {:induction false} LeadingMonotone(pages: seq<Page>)
    requires pages != []
    ensures |Leading(pages[..|pages| - 1])| <= |Leading(pages)| <= 1 + |Leading(pages[..|pages| - 1])|
    decreases |pages|
  {
    var n := |pages|;
    if n > 1 {
      assert pages[..n - 1][..n - 2] == pages[..n - 2];
      LeadingMonotone(pages[..n - 1]);
    }
  }

  lemma {:induction false} LeadingFewest(pages: seq<Page>, groups: seq<Group>)
    requires Partition(pages, groups)
    ensures |Leading(pages)| <= |groups|
    decreases |groups|
  {
    if groups != [] {
      var (last, n) := (|groups| - 1, |pages|);
      var g := groups[last];
      FlattenLast(groups);
      assert Fits(g) && pages[n - |g|..] == g && pages[..n - |g|] == Flatten(groups[..last]);
      LeadingFewest(pages[..n - |g|], groups[..last]);
      if |g| == 1 {
        LeadingMonotone(pages);
      } else {
        assert pages[n - 2] == g[0] && pages[n - 1] == g[1];
      }
    }
  }

  // ---- Which way the leftovers fall --------------------------------------------------------

  /** A group of one upright page. */
  predicate Stray(group: Group) {
    |group| == 1 && !Stitched(group[0])
  }

  predicate StandsStitched(group: Group) {
    |group| == 1 && Stitched(group[0])
  }

  predicate StrayBefore(groups: seq<Group>, i: int)
    requires 0 <= i < |groups| - 1
  {
    Stray(groups[i]) && !StandsStitched(groups[i + 1])
  }

  predicate StrayBehind(groups: seq<Group>, i: int)
    requires 0 < i < |groups|
  {
    Stray(groups[i]) && !StandsStitched(groups[i - 1])
  }

  /** An upright page stands alone only at the end of the run or before a stitched one. */
  ghost predicate FlushFront(groups: seq<Group>) {
    forall i :: 0 <= i < |groups| - 1 ==> !StrayBefore(groups, i)
  }

  /** An upright page stands alone only at the start of the run or behind a stitched one. */
  ghost predicate FlushBack(groups: seq<Group>) {
    forall i :: 0 < i < |groups| ==> !StrayBehind(groups, i)
  }

  lemma FlushFrontStep(groups: seq<Group>)
    requires |groups| > 1
    ensures FlushFront(groups) <==> !StrayBefore(groups, 0) && FlushFront(groups[1..])
  {
    var rest := groups[1..];
    assert forall i :: 0 <= i < |rest| - 1 ==> StrayBefore(rest, i) == StrayBefore(groups, i + 1);
    if FlushFront(rest) && !StrayBefore(groups, 0) {
      forall i | 0 <= i < |groups| - 1
        ensures !StrayBefore(groups, i)
      {
        assert i > 0 ==> StrayBefore(rest, i - 1) == StrayBefore(groups, i);
      }
    }
  }

  lemma FlushBackStep(groups: seq<Group>)
    requires |groups| > 1
    ensures FlushBack(groups) <==> !StrayBehind(groups, |groups| - 1) && FlushBack(groups[..|groups| - 1])
  {
    var rest := groups[..|groups| - 1];
    assert forall i :: 0 < i < |rest| ==> StrayBehind(rest, i) == StrayBehind(groups, i);
  }

  /** Pairing forwards is the one partition whose strays all sit at the far end of their run. */
  lemma {:induction false} TrailingIsTheFlushOne(pages: seq<Page>, groups: seq<Group>)
    requires Partition(pages, groups)
    ensures FlushFront(groups) <==> groups == Trailing(pages)
    decreases |groups|
  {
    if groups != [] {
      var (g, rest) := (groups[0], groups[1..]);
      assert Fits(g) && pages[..|g|] == g && pages[|g|..] == Flatten(rest);
      TrailingIsTheFlushOne(pages[|g|..], rest);
      assert groups == [g] + rest;
      assert g == if |g| == 1 then [pages[0]] else [pages[0], pages[1]];
      if rest != [] {
        FlushFrontStep(groups);
        assert Fits(rest[0]) && Flatten(rest)[0] == rest[0][0] == pages[|g|];
        assert StandsStitched(rest[0]) == Stitched(pages[|g|]);
        hide FlushFront, Flatten, Stitched;
        assert StrayBefore(groups, 0) <==> |g| == 1 && !Stitched(pages[0]) && !Stitched(pages[1]);
        assert Trailing(pages) == [g] + Trailing(pages[|g|..]) || StrayBefore(groups, 0);
      } else {
        assert pages == g;
      }
    }
  }

  predicate LastAlone(pages: seq<Page>)
    requires pages != []
  {
    Stitched(pages[|pages| - 1]) || |pages| == 1 || Stitched(pages[|pages| - 2])
  }

  lemma LeadingEnds(pages: seq<Page>)
    requires pages != []
    ensures LastAlone(pages) ==> Leading(pages) == Leading(pages[..|pages| - 1]) + [pages[|pages| - 1..]]
    ensures !LastAlone(pages) ==> Leading(pages) == Leading(pages[..|pages| - 2]) + [pages[|pages| - 2..]]
  {
    assert [pages[|pages| - 1]] == pages[|pages| - 1..];
    if |pages| > 1 {
      assert [pages[|pages| - 2], pages[|pages| - 1]] == pages[|pages| - 2..];
    }
  }

  lemma LastGroup(pages: seq<Page>, groups: seq<Group>)
    requires Partition(pages, groups) && groups != []
    ensures var g := groups[|groups| - 1];
      && |g| <= |pages| && Fits(g) && pages[|pages| - |g|..] == g
      && Partition(pages[..|pages| - |g|], groups[..|groups| - 1])
  {
    FlattenLast(groups);
  }

  lemma StrayAtBack(pages: seq<Page>, groups: seq<Group>)
    requires Partition(pages, groups) && |groups| > 1 && pages != []
    ensures StrayBehind(groups, |groups| - 1) <==> |groups[|groups| - 1]| == 1 && !LastAlone(pages)
    ensures |groups[|groups| - 1]| == 2 ==> !LastAlone(pages)
  {
    var (n, last) := (|pages|, |groups| - 1);
    var g := groups[last];
    LastGroup(pages, groups);
    LastGroup(pages[..n - |g|], groups[..last]);
    assert pages[n - 1] == g[|g| - 1];
    if |g| == 2 {
      assert pages[n - 2] == g[0];
    } else {
      assert pages[n - 2] == groups[last - 1][|groups[last - 1]| - 1];
    }
  }

  /** Pairing backwards is the one partition whose strays all sit at the near end of their run. */
  lemma {:induction false} LeadingIsTheFlushOne(pages: seq<Page>, groups: seq<Group>)
    requires Partition(pages, groups)
    ensures FlushBack(groups) <==> groups == Leading(pages)
    decreases |groups|
  {
    if groups != [] {
      var (g, rest) := (groups[|groups| - 1], groups[..|groups| - 1]);
      LastGroup(pages, groups);
      LeadingIsTheFlushOne(pages[..|pages| - |g|], rest);
      LeadingEnds(pages);
      assert groups == rest + [g];
      if rest != [] {
        FlushBackStep(groups);
        StrayAtBack(pages, groups);
        hide FlushBack, Partition, LastAlone, StrayBehind, Leading;
      } else {
        assert pages == g;
      }
    }
  }

  // ---- The whole volume --------------------------------------------------------------------

  /** The first page after the cover at or past the anchor. */
  function FirstAt(pages: seq<Page>, anchor: int, i: nat): (k: nat)
    requires i <= |pages|
    ensures i <= k <= |pages|
    ensures forall j :: i <= j < k ==> pages[j].number < anchor
    ensures k < |pages| ==> pages[k].number >= anchor
    decreases |pages| - i
  {
    if i < |pages| && pages[i].number < anchor then FirstAt(pages, anchor, i + 1) else i
  }

  function Grouped(ordered: seq<Page>, anchor: int): seq<Group> {
    if ordered == [] then []
    else
      var k := FirstAt(ordered, anchor, 1);
      [[ordered[0]]] + Leading(ordered[1..k]) + Trailing(ordered[k..])
  }

  /** `pageGroups`. */
  function Groups(pages: seq<Page>, anchor: Anchor): seq<Group> {
    Grouped(Ordered(pages), PairingStart(anchor))
  }

  lemma {:induction false} MembersOfPartition(groups: seq<Group>, g: Group, page: Page)
    requires g in groups && page in g
    ensures page in Flatten(groups)
  {
    if groups[0] != g {
      MembersOfPartition(groups[1..], g, page);
    }
  }

  lemma NoStraddleWithin(pages: seq<Page>, groups: seq<Group>, anchor: int)
    requires Partition(pages, groups)
    requires (forall p :: p in pages ==> p.number < anchor) || (forall p :: p in pages ==> p.number >= anchor)
    ensures forall g :: g in groups ==> !Straddles(g, anchor)
  {
    forall g | g in groups
      ensures !Straddles(g, anchor)
    {
      if |g| == 2 {
        MembersOfPartition(groups, g, g[0]);
        MembersOfPartition(groups, g, g[1]);
      }
    }
  }

  /** The grouping keeps the rules. */
  lemma GroupedIsLayout(ordered: seq<Page>, anchor: int)
    requires Ascending(ordered)
    ensures Layout(ordered, anchor, Grouped(ordered, anchor))
  {
    if ordered != [] {
      var k := FirstAt(ordered, anchor, 1);
      var (cover, before, after) := ([[ordered[0]]], Leading(ordered[1..k]), Trailing(ordered[k..]));
      LeadingPartitions(ordered[1..k]);
      TrailingPartitions(ordered[k..]);
      NoStraddleWithin(ordered[1..k], before, anchor);
      NoStraddleWithin(ordered[k..], after, anchor);
      FlattenJoin(cover + before, after);
      FlattenJoin(cover, before);
      assert Flatten(cover) == cover[0] + Flatten([]);
      assert ordered == [ordered[0]] + ordered[1..k] + ordered[k..];
    }
  }

  lemma CrossingStraddles(before: seq<Page>, after: seq<Page>, g: Group, anchor: int)
    requires (forall p :: p in before ==> p.number < anchor) && (forall p :: p in after ==> p.number >= anchor)
    requires before != [] && |g| <= 2 && g <= before + after
    ensures |g| > |before| ==> Straddles(g, anchor)
  {
  }

  /** Without a spread across the anchor, any grouping falls apart into one of each side. */
  lemma {:induction false} SplitAtAnchor(before: seq<Page>, after: seq<Page>, groups: seq<Group>, anchor: int)
    returns (j: nat)
    requires Partition(before + after, groups) && forall g :: g in groups ==> !Straddles(g, anchor)
    requires (forall p :: p in before ==> p.number < anchor) && (forall p :: p in after ==> p.number >= anchor)
    ensures j <= |groups| && Partition(before, groups[..j]) && Partition(after, groups[j..])
    decreases |groups|
  {
    if before == [] {
      assert before + after == after;
      j := 0;
    } else {
      var g := groups[0];
      assert Fits(g) && !Straddles(g, anchor) && (before + after)[..|g|] == g;
      CrossingStraddles(before, after, g, anchor);
      assert before == g + before[|g|..] && (before + after)[|g|..] == before[|g|..] + after;
      assert Flatten(groups[1..]) == before[|g|..] + after;
      var i := SplitAtAnchor(before[|g|..], after, groups[1..], anchor);
      j := i + 1;
      assert groups[..j] == [g] + groups[1..][..i] && groups[j..] == groups[1..][i..];
    }
  }

  /** No layout that keeps the rules has fewer groups. */
  lemma GroupedIsFewest(ordered: seq<Page>, anchor: int, groups: seq<Group>)
    requires Ascending(ordered) && Layout(ordered, anchor, groups)
    ensures |Grouped(ordered, anchor)| <= |groups|
  {
    if ordered != [] {
      var k := FirstAt(ordered, anchor, 1);
      var (before, after, rest) := (ordered[1..k], ordered[k..], groups[1..]);
      assert groups != [] && Fits(groups[0]) && groups[0][0] == ordered[0];
      assert ordered[1..] == before + after && Flatten(rest) == ordered[1..];
      var j := SplitAtAnchor(before, after, rest, anchor);
      LeadingFewest(before, rest[..j]);
      TrailingFewest(after, rest[j..]);
    }
  }

  // ---- The grouping, exactly ---------------------------------------------------------------

  /** A page counts as stitched if it is marked so or its known width is at least a quarter more than its height. */
  lemma StitchedExactly(page: Page)
    ensures Stitched(page) <==>
      page.spread || (page.width > 0 && page.height > 0 && page.width as real / page.height as real >= 1.25)
  {
    if page.height > 0 {
      var (w, h) := (page.width as real, page.height as real);
      assert w == w / h * h;
      assert 4.0 * w >= 5.0 * h <==> w / h >= 1.25 by {
        Scales(w / h, 1.25, h);
      }
    }
  }

  lemma Scales(x: real, y: real, h: real)
    requires h > 0.0
    ensures x * h >= y * h <==> x >= y
  {
  }

  /** The page number pairing starts from: a usable anchor from three on, cut to a whole number, and otherwise two. */
  predicate StartsAt(anchor: Anchor, n: int) {
    if anchor.At? && anchor.value >= 3.0 then n as real <= anchor.value < n as real + 1.0 else n == 2
  }

  lemma StartIs(anchor: Anchor, n: int)
    requires StartsAt(anchor, n)
    ensures PairingStart(anchor) == n
  {
  }

  /** A layout in which the first groups after the cover, up to some place, have the pages before page `n` and leave an
      upright page alone only at their start, and the others have the rest and leave one alone only at the end; apart
      from pages next to stitched ones. */
  ghost predicate Arranged(ordered: seq<Page>, n: int, groups: seq<Group>) {
    && Layout(ordered, n, groups)
    && (groups != [] ==> exists j :: 1 <= j <= |groups| && FlushAround(n, groups, j))
  }

  ghost predicate FlushAround(n: int, groups: seq<Group>, j: int)
    requires 1 <= j <= |groups|
  {
    && (forall p :: p in Flatten(groups[1..j]) ==> p.number < n)
    && (forall p :: p in Flatten(groups[j..]) ==> p.number >= n)
    && FlushBack(groups[1..j])
    && FlushFront(groups[j..])
  }

  lemma FirstAtIs(pages: seq<Page>, anchor: int, i: nat, k: nat)
    requires i <= k <= |pages|
    requires forall j :: i <= j < k ==> pages[j].number < anchor
    requires k < |pages| ==> pages[k].number >= anchor
    ensures FirstAt(pages, anchor, i) == k
  {
  }

  lemma GroupedIsArranged(ordered: seq<Page>, n: int)
    requires Ascending(ordered)
    ensures Arranged(ordered, n, Grouped(ordered, n))
  {
    GroupedIsLayout(ordered, n);
    if ordered != [] {
      var k := FirstAt(ordered, n, 1);
      var (before, after, groups) := (Leading(ordered[1..k]), Trailing(ordered[k..]), Grouped(ordered, n));
      LeadingPartitions(ordered[1..k]);
      TrailingPartitions(ordered[k..]);
      LeadingIsTheFlushOne(ordered[1..k], before);
      TrailingIsTheFlushOne(ordered[k..], after);
      var j := 1 + |before|;
      assert groups[1..j] == before && groups[j..] == after;
      assert forall p :: p in ordered[k..] ==> p.number >= n;
      hide FlushBack, FlushFront, Leading, Trailing, Layout, Fits;
      assert FlushAround(n, groups, j);
    }
  }

  lemma ArrangedIsGrouped(ordered: seq<Page>, n: int, groups: seq<Group>)
    requires Arranged(ordered, n, groups)
    ensures groups == Grouped(ordered, n)
  {
    if groups != [] {
      var j :| 1 <= j <= |groups| && FlushAround(n, groups, j);
      var (cover, before, after) := (groups[0], groups[1..j], groups[j..]);
      assert groups == [cover] + before + after;
      FlattenJoin([cover] + before, after);
      FlattenJoin([cover], before);
      assert Flatten([cover]) == cover + Flatten([]);
      assert ordered == cover + Flatten(before) + Flatten(after);
      assert Fits(cover) && cover == [ordered[0]];
      var k := 1 + |Flatten(before)|;
      assert ordered[1..k] == Flatten(before) && ordered[k..] == Flatten(after);
      FirstAtIs(ordered, n, 1, k);
      assert (forall g :: g in before ==> g in groups) && (forall g :: g in after ==> g in groups);
      LeadingIsTheFlushOne(Flatten(before), before);
      TrailingIsTheFlushOne(Flatten(after), after);
    }
  }

  /** The grouping of a volume is the one arrangement around the page its anchor names, and no lawful layout around
      that page has fewer groups. */
  lemma GroupsExactly(pages: seq<Page>, anchor: Anchor, n: int, groups: seq<Group>)
    requires StartsAt(anchor, n)
    ensures groups == Groups(pages, anchor) <==> Arranged(Ordered(pages), n, groups)
    ensures Layout(Ordered(pages), n, groups) ==> |Groups(pages, anchor)| <= |groups|
  {
    StartIs(anchor, n);
    OrderedSorts(pages);
    GroupedIsArranged(Ordered(pages), n);
    hide Arranged, Ordered, Grouped, Layout, PairingStart;
    if Arranged(Ordered(pages), n, groups) {
      ArrangedIsGrouped(Ordered(pages), n, groups);
    }
    if Layout(Ordered(pages), n, groups) {
      GroupedIsFewest(Ordered(pages), n, groups);
    }
  }

  // ---- The loops ---------------------------------------------------------------------------

  function Reversed(groups: seq<Group>): seq<Group> {
    if groups == [] then [] else Reversed(groups[1..]) + [groups[0]]
  }

  lemma {:induction false} ReversedPush(groups: seq<Group>, g: Group)
    ensures Reversed(groups + [g]) == [g] + Reversed(groups)
  {
    if groups == [] {
      assert [] + [g] == [g];
    } else {
      assert (groups + [g])[1..] == groups[1..] + [g];
      ReversedPush(groups[1..], g);
    }
  }

  /** The group that pairing forwards makes at a position. */
  function NextGroup(pages: seq<Page>, i: nat): (group: Group)
    requires i < |pages|
    ensures 1 <= |group| <= 2 && i + |group| <= |pages|
  {
    if Stitched(pages[i]) || i + 1 == |pages| || Stitched(pages[i + 1]) then [pages[i]] else [pages[i], pages[i + 1]]
  }

  /** The groups made so far and those still to come from position `i` are the whole layout. */
  ghost predicate Underway(whole: seq<Group>, groups: seq<Group>, pages: seq<Page>, i: nat)
    requires i <= |pages|
  {
    groups + Trailing(pages[i..]) == whole
  }

  lemma UnderwayStep(whole: seq<Group>, groups: seq<Group>, pages: seq<Page>, i: nat)
    requires i < |pages| && Underway(whole, groups, pages, i)
    ensures Underway(whole, groups + [NextGroup(pages, i)], pages, i + |NextGroup(pages, i)|)
  {
  }

  lemma UnderwayDone(whole: seq<Group>, groups: seq<Group>, pages: seq<Page>)
    ensures Underway(whole, groups, pages, |pages|) <==> groups == whole
  {
  }

  method LeadingGroups(pages: seq<Page>) returns (result: seq<Group>)
    ensures result == Leading(pages)
  {
    var groups: seq<Group> := [];
    var index := |pages| - 1;
    assert pages[..index + 1] == pages;
    while index >= 0
      invariant -1 <= index < |pages|
      invariant Leading(pages[..index + 1]) + Reversed(groups) == Leading(pages)
    {
      var page, rest := pages[index], pages[..index + 1];
      var single := Stitched(page) || index == 0 || Stitched(pages[index - 1]);
      var group := if single then [page] else [pages[index - 1], page];
      assert rest[..|rest| - |group|] == pages[..index + 1 - |group|];
      assert Leading(rest) == Leading(pages[..index + 1 - |group|]) + [group];
      ReversedPush(groups, group);
      groups := groups + [group];
      index := index - |group|;
    }
    result := Reversed(groups);
  }

  lemma UnderwayStart(ordered: seq<Page>, anchor: int, k: nat)
    requires ordered != [] && 1 <= k <= |ordered| && FirstAt(ordered, anchor, k) == FirstAt(ordered, anchor, 1)
    requires k == |ordered| || ordered[k].number >= anchor
    ensures Underway(Grouped(ordered, anchor), [[ordered[0]]] + Leading(ordered[1..k]), ordered, k)
  {
  }

  method PageGroups(pages: seq<Page>, pairingAnchor: Anchor) returns (groups: seq<Group>)
    ensures groups == Groups(pages, pairingAnchor)
  {
    var ordered, anchor := Ordered(pages), PairingStart(pairingAnchor);
    if ordered == [] {
      return [];
    }
    var index := 1;
    while index < |ordered| && ordered[index].number < anchor
      invariant 1 <= index <= |ordered|
      invariant FirstAt(ordered, anchor, index) == FirstAt(ordered, anchor, 1)
    {
      index := index + 1;
    }
    UnderwayStart(ordered, anchor, index);
    var leading := LeadingGroups(ordered[1..index]);
    groups := [[ordered[0]]] + leading;
    hide Underway, Grouped, FirstAt, Leading, Trailing, Stitched, Ordered, PairingStart;
    while index < |ordered|
      invariant 1 <= index <= |ordered|
      invariant Underway(Grouped(ordered, anchor), groups, ordered, index)
    {
      UnderwayStep(Grouped(ordered, anchor), groups, ordered, index);
      if Stitched(ordered[index]) || index + 1 == |ordered| || Stitched(ordered[index + 1]) {
        groups := groups + [[ordered[index]]];
        index := index + 1;
      } else {
        groups := groups + [[ordered[index], ordered[index + 1]]];
        index := index + 2;
      }
    }
    UnderwayDone(Grouped(ordered, anchor), groups, ordered);
  }

  // ---- Turning pages -----------------------------------------------------------------------

  predicate Shows(group: Group, number: int) {
    exists i :: 0 <= i < |group| && group[i].number == number
  }

  /** `findIndex`: the first group that shows the page, or -1. */
  function FindGroup(groups: seq<Group>, number: int): (k: int)
    ensures -1 <= k < |groups|
  {
    if groups == [] then -1
    else if Shows(groups[0], number) then 0
    else
      var k := FindGroup(groups[1..], number);
      if k < 0 then -1 else k + 1
  }

  function Numbers(group: Group): seq<int> {
    seq(|group|, i requires 0 <= i < |group| => group[i].number)
  }

  /** The group a turn lands on, by position. */
  function NumberAt(groups: seq<Group>, k: int): Option<int> {
    if 0 <= k < |groups| && groups[k] != [] then Some(groups[k][0].number) else None
  }

  function AdjacentPage(mode: Mode, pages: seq<Page>, number: int, direction: int, adaptiveSingle: bool, total: int,
    anchor: Anchor): Option<int>
  {
    if pages == [] then None
    else if mode != Double || adaptiveSingle then
      var target := number + direction;
      if target < 1 || target > total then None else Some(target)
    else
      var groups := Groups(pages, anchor);
      NumberAt(groups, FindGroup(groups, number) + direction)
  }

  function FindPage(pages: seq<Page>, number: int): Option<Page> {
    if pages == [] then None
    else if pages[0].number == number then Some(pages[0])
    else FindPage(pages[1..], number)
  }

  function VisiblePages(mode: Mode, pages: seq<Page>, number: int, adaptiveSingle: bool, anchor: Anchor): Group {
    if pages == [] then []
    else
      var found := FindPage(pages, number);
      var page := if found.Some? then found.value else pages[0];
      if mode != Double then [page]
      else
        var groups := Groups(pages, anchor);
        var k := FindGroup(groups, page.number);
        var group := if k < 0 then [page] else groups[k];
        if adaptiveSingle && |group| > 1 then [page] else group
  }

  function ViewAt(groups: seq<Group>, k: int): seq<seq<int>> {
    if 0 <= k < |groups| then [Numbers(groups[k])] else []
  }

  function PageAt(number: int, total: int): seq<seq<int>> {
    if 1 <= number <= total then [[number]] else []
  }

  function PreloadViews(mode: Mode, pages: seq<Page>, number: int, adaptiveSingle: bool, total: int, anchor: Anchor):
    seq<seq<int>>
  {
    if mode != Double || adaptiveSingle then
      PageAt(number + 1, total) + PageAt(number + 2, total) + PageAt(number + 3, total) + PageAt(number - 1, total)
    else
      var groups := Groups(pages, anchor);
      var k := FindGroup(groups, number);
      if k < 0 then [] else ViewAt(groups, k + 1) + ViewAt(groups, k + 2) + ViewAt(groups, k - 1)
  }

  // ---- Each page is in one group -----------------------------------------------------------

  ghost predicate DistinctNumbers(pages: seq<Page>) {
    forall i, j :: 0 <= i < j < |pages| ==> pages[i].number != pages[j].number
  }

  ghost predicate Strict(pages: seq<Page>) {
    forall i, j :: 0 <= i < j < |pages| ==> pages[i].number < pages[j].number
  }

  lemma {:induction false} OrderedMembers(pages: seq<Page>, p: Page)
    ensures p in Ordered(pages) <==> p in pages
  {
    if pages != [] {
      OrderedMembers(pages[1..], p);
      InsertMembers(pages[0], Ordered(pages[1..]), p);
      assert pages == [pages[0]] + pages[1..];
    }
  }

  lemma {:induction false} InsertStrict(page: Page, pages: seq<Page>)
    requires Strict(pages) && forall p :: p in pages ==> p.number != page.number
    ensures Strict(Insert(page, pages))
  {
    if pages != [] && page.number >= pages[0].number {
      InsertStrict(page, pages[1..]);
      var rest := Insert(page, pages[1..]);
      forall i | 0 <= i < |rest|
        ensures pages[0].number < rest[i].number
      {
        InsertMembers(page, pages[1..], rest[i]);
        assert pages[0] in pages;
      }
    }
  }

  lemma {:induction false} OrderedStrict(pages: seq<Page>)
    requires DistinctNumbers(pages)
    ensures Strict(Ordered(pages))
  {
    if pages != [] {
      OrderedStrict(pages[1..]);
      forall p | p in Ordered(pages[1..])
        ensures p.number != pages[0].number
      {
        OrderedMembers(pages[1..], p);
      }
      InsertStrict(pages[0], Ordered(pages[1..]));
    }
  }

  lemma {:induction false} FindsIts(groups: seq<Group>, k: nat, p: Page)
    requires Strict(Flatten(groups)) && k < |groups| && p in groups[k]
    ensures FindGroup(groups, p.number) == k
  {
    var (g, rest) := (groups[0], Flatten(groups[1..]));
    assert Flatten(groups) == g + rest;
    if k > 0 {
      MembersOfPartition(groups[1..], groups[k], p);
      var j :| 0 <= j < |rest| && rest[j] == p;
      assert Flatten(groups)[|g| + j] == p;
      assert forall i :: 0 <= i < |g| ==> Flatten(groups)[i] == g[i];
      assert !Shows(g, p.number);
      forall i, j | 0 <= i < j < |rest|
        ensures rest[i].number < rest[j].number
      {
        assert Flatten(groups)[|g| + i] == rest[i] && Flatten(groups)[|g| + j] == rest[j];
      }
      FindsIts(groups[1..], k - 1, p);
    } else {
      assert Shows(g, p.number);
    }
  }

  /** Every page of a volume is in exactly one group, and the cover is a group of its own. */
  lemma GroupsOfVolume(pages: seq<Page>, anchor: Anchor)
    requires DistinctNumbers(pages)
    ensures Layout(Ordered(pages), PairingStart(anchor), Groups(pages, anchor))
    ensures Strict(Flatten(Groups(pages, anchor)))
    ensures multiset(Flatten(Groups(pages, anchor))) == multiset(pages)
  {
    OrderedSorts(pages);
    OrderedStrict(pages);
    GroupedIsLayout(Ordered(pages), PairingStart(anchor));
  }

  /** Page `p` is in the `k`th group of a volume whose page numbers are distinct. */
  ghost predicate InGroup(pages: seq<Page>, anchor: Anchor, k: int, p: Page) {
    DistinctNumbers(pages) && 0 <= k < |Groups(pages, anchor)| && p in Groups(pages, anchor)[k]
  }

  lemma FirstOfGroup(pages: seq<Page>, anchor: Anchor, k: int)
    requires DistinctNumbers(pages)
    ensures NumberAt(Groups(pages, anchor), k).Some? <==> 0 <= k < |Groups(pages, anchor)|
    ensures 0 <= k < |Groups(pages, anchor)| ==> Groups(pages, anchor)[k] != []
    ensures 0 <= k < |Groups(pages, anchor)| ==> InGroup(pages, anchor, k, Groups(pages, anchor)[k][0])
  {
    GroupsOfVolume(pages, anchor);
    hide Groups, Ordered;
    assert 0 <= k < |Groups(pages, anchor)| ==> Fits(Groups(pages, anchor)[k]);
  }

  lemma {:induction false} FindPageFinds(pages: seq<Page>, p: Page)
    requires DistinctNumbers(pages)
    ensures p in pages ==> FindPage(pages, p.number) == Some(p)
  {
    if pages != [] && pages[0] != p {
      FindPageFinds(pages[1..], p);
    }
  }

  lemma GroupFound(pages: seq<Page>, anchor: Anchor, k: nat, p: Page)
    requires InGroup(pages, anchor, k, p)
    ensures FindGroup(Groups(pages, anchor), p.number) == k && pages != [] && FindPage(pages, p.number) == Some(p)
  {
    var groups := Groups(pages, anchor);
    GroupsOfVolume(pages, anchor);
    FindsIts(groups, k, p);
    MembersOfPartition(groups, groups[k], p);
    OrderedMembers(pages, p);
    FindPageFinds(pages, p);
  }

  /** From any page of a group, a turn lands on the first page of the group `direction` further on, or
      nowhere past the ends; and what is shown there is that whole group. */
  lemma TurnMovesOneGroup(pages: seq<Page>, anchor: Anchor, k: nat, p: Page, direction: int, total: int)
    requires InGroup(pages, anchor, k, p)
    ensures VisiblePages(Double, pages, p.number, false, anchor) == Groups(pages, anchor)[k]
    ensures var there := AdjacentPage(Double, pages, p.number, direction, false, total, anchor);
      && there == NumberAt(Groups(pages, anchor), k + direction)
      && (there.Some? <==> 0 <= k + direction < |Groups(pages, anchor)|)
      && (there.Some? ==>
        VisiblePages(Double, pages, there.value, false, anchor) == Groups(pages, anchor)[k + direction])
  {
    GroupFound(pages, anchor, k, p);
    FirstOfGroup(pages, anchor, k + direction);
    if 0 <= k + direction < |Groups(pages, anchor)| {
      GroupFound(pages, anchor, k + direction, Groups(pages, anchor)[k + direction][0]);
    }
    hide Groups, FindGroup, FindPage, InGroup;
  }

  function Along(k: int, direction: int, steps: nat): int {
    if direction > 0 then k + steps else k - steps
  }

  /** `steps` turns in one direction. */
  function Turns(pages: seq<Page>, anchor: Anchor, from: Option<int>, direction: int, steps: nat): Option<int>
    decreases steps
  {
    if steps == 0 || from.None? then from
    else
      var there := AdjacentPage(Double, pages, from.value, direction, false, |pages|, anchor);
      Turns(pages, anchor, there, direction, steps - 1)
  }

  lemma {:induction false} TurnsFrom(pages: seq<Page>, anchor: Anchor, k: nat, p: Page, direction: int, steps: nat)
    requires InGroup(pages, anchor, k, p) && (direction == 1 || direction == -1) && steps > 0
    ensures Turns(pages, anchor, Some(p.number), direction, steps)
      == NumberAt(Groups(pages, anchor), Along(k, direction, steps))
    decreases steps
  {
    TurnMovesOneGroup(pages, anchor, k, p, direction, |pages|);
    FirstOfGroup(pages, anchor, Along(k, direction, steps));
    var there := AdjacentPage(Double, pages, p.number, direction, false, |pages|, anchor);
    assert Turns(pages, anchor, Some(p.number), direction, steps) == Turns(pages, anchor, there, direction, steps - 1);
    if steps > 1 && there.Some? {
      FirstOfGroup(pages, anchor, k + direction);
      TurnsFrom(pages, anchor, k + direction, Groups(pages, anchor)[k + direction][0], direction, steps - 1);
    }
    hide Groups, AdjacentPage, VisiblePages, InGroup;
  }

  /** Reading on from the cover shows every group once, in order, and then stops. */
  lemma ForwardWalkShowsEveryGroup(pages: seq<Page>, anchor: Anchor, steps: nat)
    requires DistinctNumbers(pages) && pages != []
    ensures Groups(pages, anchor) != [] && Groups(pages, anchor)[0] == [Ordered(pages)[0]]
    ensures Shown(pages, anchor, Turns(pages, anchor, Some(Ordered(pages)[0].number), 1, steps)) ==
      ViewAt(Groups(pages, anchor), steps)
  {
    OrderedMembers(pages, pages[0]);
    assert Groups(pages, anchor)[0] == [Ordered(pages)[0]];
    var cover := Ordered(pages)[0];
    hide Groups, Ordered;
    assert InGroup(pages, anchor, 0, cover);
    ShownAfter(pages, anchor, 0, cover, 1, steps);
  }

  /** A turn and its opposite show the same group again. */
  lemma BackUndoesForward(pages: seq<Page>, anchor: Anchor, k: nat, p: Page, direction: int, total: int)
    requires InGroup(pages, anchor, k, p)
    requires AdjacentPage(Double, pages, p.number, direction, false, total, anchor).Some?
    ensures var there := AdjacentPage(Double, pages, p.number, direction, false, total, anchor).value;
      var back := AdjacentPage(Double, pages, there, -direction, false, total, anchor);
      && back.Some?
      && VisiblePages(Double, pages, back.value, false, anchor) == VisiblePages(Double, pages, p.number, false, anchor)
  {
    TurnMovesOneGroup(pages, anchor, k, p, direction, total);
    FirstOfGroup(pages, anchor, k + direction);
    TurnMovesOneGroup(pages, anchor, k + direction, Groups(pages, anchor)[k + direction][0], -direction, total);
    hide AdjacentPage, VisiblePages, Groups, InGroup;
  }

  /** The view after a turn, if there is one. */
  function Shown(pages: seq<Page>, anchor: Anchor, at: Option<int>): seq<seq<int>> {
    if at.Some? then [Numbers(VisiblePages(Double, pages, at.value, false, anchor))] else []
  }

  lemma ShownAfter(pages: seq<Page>, anchor: Anchor, k: nat, p: Page, direction: int, steps: nat)
    requires InGroup(pages, anchor, k, p) && (direction == 1 || direction == -1)
    ensures Shown(pages, anchor, Turns(pages, anchor, Some(p.number), direction, steps)) ==
      ViewAt(Groups(pages, anchor), Along(k, direction, steps))
  {
    var at := Along(k, direction, steps);
    TurnMovesOneGroup(pages, anchor, k, p, direction, |pages|);
    if steps > 0 {
      TurnsFrom(pages, anchor, k, p, direction, steps);
      FirstOfGroup(pages, anchor, at);
      if 0 <= at < |Groups(pages, anchor)| {
        TurnMovesOneGroup(pages, anchor, at, Groups(pages, anchor)[at][0], direction, |pages|);
      }
    } else {
      assert at == k && Turns(pages, anchor, Some(p.number), direction, steps) == Some(p.number);
    }
    hide VisiblePages, Groups, AdjacentPage, Turns;
  }

  lemma PreloadAt(pages: seq<Page>, anchor: Anchor, k: nat, p: Page, total: int)
    requires InGroup(pages, anchor, k, p)
    ensures var groups := Groups(pages, anchor);
      PreloadViews(Double, pages, p.number, false, total, anchor) ==
        ViewAt(groups, k + 1) + ViewAt(groups, k + 2) + ViewAt(groups, k - 1)
  {
    GroupFound(pages, anchor, k, p);
    hide Groups, FindGroup, ViewAt, PageAt, FindPage, InGroup;
  }

  /** What is fetched ahead is exactly what one and two turns forward and one turn back will show: whole
      groups, in that order. */
  lemma PreloadIsWhatTurnsShow(pages: seq<Page>, anchor: Anchor, k: nat, p: Page, total: int)
    requires InGroup(pages, anchor, k, p)
    ensures PreloadViews(Double, pages, p.number, false, total, anchor) ==
      Shown(pages, anchor, Turns(pages, anchor, Some(p.number), 1, 1))
      + Shown(pages, anchor, Turns(pages, anchor, Some(p.number), 1, 2))
      + Shown(pages, anchor, Turns(pages, anchor, Some(p.number), -1, 1))
  {
    ShownAfter(pages, anchor, k, p, 1, 1);
    ShownAfter(pages, anchor, k, p, 1, 2);
    ShownAfter(pages, anchor, k, p, -1, 1);
    PreloadAt(pages, anchor, k, p, total);
    hide Groups, Shown, Turns, InGroup, ViewAt, PreloadViews;
  }

  lemma {:induction false} NotShown(groups: seq<Group>, number: int)
    requires forall p :: p in Flatten(groups) ==> p.number != number
    ensures FindGroup(groups, number) == -1
  {
    if groups != [] {
      assert Flatten(groups) == groups[0] + Flatten(groups[1..]);
      NotShown(groups[1..], number);
    }
  }

  /** A page the volume does not have: forward starts at the cover, back goes nowhere, nothing is fetched. */
  lemma UnknownPage(pages: seq<Page>, anchor: Anchor, number: int, total: int)
    requires DistinctNumbers(pages) && pages != [] && forall p :: p in pages ==> p.number != number
    ensures AdjacentPage(Double, pages, number, 1, false, total, anchor) == Some(Ordered(pages)[0].number)
    ensures AdjacentPage(Double, pages, number, -1, false, total, anchor) == None
    ensures PreloadViews(Double, pages, number, false, total, anchor) == []
  {
    var groups := Groups(pages, anchor);
    GroupsOfVolume(pages, anchor);
    forall p | p in Flatten(groups)
      ensures p.number != number
    {
      OrderedMembers(pages, p);
    }
    NotShown(groups, number);
    OrderedMembers(pages, pages[0]);
    assert groups[0] == [Ordered(pages)[0]];
    hide Groups, FindGroup, Layout, Ordered, Flatten;
  }

  /** Outside double mode, or when spreads are shown a page at a time, a turn moves by page numbers within the volume,
      the page itself is shown, and the next three and the one before are fetched. */
  lemma PageByPage(mode: Mode, pages: seq<Page>, anchor: Anchor, p: Page, adaptiveSingle: bool, direction: int,
    total: int)
    requires DistinctNumbers(pages) && p in pages && (mode != Double || adaptiveSingle)
    ensures VisiblePages(mode, pages, p.number, adaptiveSingle, anchor) == [p]
    ensures AdjacentPage(mode, pages, p.number, direction, adaptiveSingle, total, anchor) ==
      if 1 <= p.number + direction <= total then Some(p.number + direction) else None
    ensures forall n :: [n] in PreloadViews(mode, pages, p.number, adaptiveSingle, total, anchor) <==>
      1 <= n <= total && (n == p.number - 1 || p.number < n <= p.number + 3)
  {
    FindPageFinds(pages, p);
    ItsGroup(pages, anchor, p);
    hide Groups, FindGroup, ViewAt, Numbers;
  }

  lemma ItsGroup(pages: seq<Page>, anchor: Anchor, p: Page)
    requires DistinctNumbers(pages) && p in pages
    ensures var groups := Groups(pages, anchor);
      var k := FindGroup(groups, p.number);
      k >= 0 && (|groups[k]| > 1 || groups[k] == [p])
  {
    GroupsOfVolume(pages, anchor);
    OrderedMembers(pages, p);
    var groups := Groups(pages, anchor);
    var k := GroupOf(groups, p);
    FindsIts(groups, k, p);
    hide Groups, FindGroup, Ordered, Stitched;
    assert Fits(groups[k]);
  }

  lemma {:induction false} GroupOf(groups: seq<Group>, p: Page) returns (k: nat)
    requires p in Flatten(groups)
    ensures k < |groups| && p in groups[k]
  {
    if p in groups[0] {
      k := 0;
    } else {
      var later := GroupOf(groups[1..], p);
      k := later + 1;
    }
  }
}
