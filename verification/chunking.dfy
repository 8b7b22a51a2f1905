/**
 * Splitting the text of an imported PDF into prompt-sized chunks. Each page
 * with text becomes a block "[PAGE n]\n<text>"; blocks are buffered and the
 * buffer is flushed into a chunk whenever the next block would push the
 * buffered size past the limit.
 */
module Chunking {
  import opened Base
  import opened Text

  /** One extracted page: its 1-based number and its text. */
  datatype Page = Page(page: int, text: string)

  /** One chunk: the distinct page numbers it covers, ascending, and its text. */
  datatype Chunk = Chunk(pages: seq<int>, text: string)

  /** A page that contributes a block: its number and the block text. */
  datatype Entry = Entry(page: int, block: string)

  // ---------------------------------------------------------------------------
  // sorted(set(xs))

  predicate StrictlyIncreasing(xs: seq<int>)
  {
    forall a, b :: 0 <= a < b < |xs| ==> xs[a] < xs[b]
  }

  /** Insert `x` into a strictly increasing list, unless it is already there. */
  function InsertSorted(xs: seq<int>, x: int): (r: seq<int>)
    requires StrictlyIncreasing(xs)
    ensures StrictlyIncreasing(r)
    ensures forall y :: y in r <==> y in xs || y == x
    ensures |r| > 0 && (xs != [] ==> r[0] == if x < xs[0] then x else xs[0])
  {
    if xs == [] then [x]
    else if x == xs[0] then xs
    else if x < xs[0] then [x] + xs
    else [xs[0]] + InsertSorted(xs[1..], x)
  }

  /** `sorted(set(xs))` */
  function SortedUnique(xs: seq<int>): (r: seq<int>)
    ensures StrictlyIncreasing(r)
    ensures forall y :: y in r <==> y in xs
  {
    if xs == [] then [] else InsertSorted(SortedUnique(xs[..|xs| - 1]), xs[|xs| - 1])
  }

  // ---------------------------------------------------------------------------
  // The specification of the chunker, as a fold over the blocks

  /** `f"[PAGE {n}]"` */
  function Header(page: int): string
  {
    "[PAGE " + IntToString(page) + "]"
  }

  /** A page's block, when its stripped text is non-empty. */
  function EntryOf(p: Page): (r: Option<Entry>)
    ensures r.Some? <==> !IsBlank(p.text)
    ensures r.Some? ==> r.value.page == p.page && r.value.block == Header(p.page) + "\n" + Strip(p.text)
  {
    var t := Strip(p.text);
    if t == [] then None else Some(Entry(p.page, Header(p.page) + "\n" + t))
  }

  /** The blocks of the pages that have text, in page-list order. */
  function Entries(pages: seq<Page>): (r: seq<Entry>)
    ensures |r| <= |pages|
  {
    if pages == [] then []
    else
      Entries(pages[..|pages| - 1])
      + match EntryOf(pages[|pages| - 1]) case Some(e) => [e] case None => []
  }

  function BlocksOf(g: seq<Entry>): (r: seq<string>)
    ensures |r| == |g| && forall k :: 0 <= k < |g| ==> r[k] == g[k].block
  {
    seq(|g|, k requires 0 <= k < |g| => g[k].block)
  }

  function PagesOf(g: seq<Entry>): (r: seq<int>)
    ensures |r| == |g| && forall k :: 0 <= k < |g| ==> r[k] == g[k].page
  {
    seq(|g|, k requires 0 <= k < |g| => g[k].page)
  }

  /** The `size` counter for a buffer: the total length of its blocks (separators not counted). */
  function Size(g: seq<Entry>): nat
  {
    if g == [] then 0 else Size(g[..|g| - 1]) + |g[|g| - 1].block|
  }

  /** Completed groups, the buffered group, and the buffered size. */
  datatype PackState = PackState(done: seq<seq<Entry>>, cur: seq<Entry>, size: int)

  /** One iteration of the loop: flush first if the block would overflow a non-empty buffer, then buffer it. */
  function PackStep(st: PackState, e: Entry, maxChars: int): PackState
  {
    if st.size + |e.block| > maxChars && st.cur != [] then PackState(st.done + [st.cur], [e], |e.block|)
    else PackState(st.done, st.cur + [e], st.size + |e.block|)
  }

  function Pack(es: seq<Entry>, maxChars: int): PackState
  {
    if es == [] then PackState([], [], 0) else PackStep(Pack(es[..|es| - 1], maxChars), es[|es| - 1], maxChars)
  }

  /** The groups of blocks that become chunks: the completed ones and the final flush. */
  function Groups(es: seq<Entry>, maxChars: int): seq<seq<Entry>>
  {
    var st := Pack(es, maxChars);
    st.done + if st.cur == [] then [] else [st.cur]
  }

  /** The chunk `flush` makes of a buffered group. */
  function Render(g: seq<Entry>): Chunk
  {
    Chunk(SortedUnique(PagesOf(g)), Strip(Join("\n\n", BlocksOf(g))))
  }

  function RenderAll(gs: seq<seq<Entry>>): (r: seq<Chunk>)
    ensures |r| == |gs| && forall k :: 0 <= k < |gs| ==> r[k] == Render(gs[k])
  {
    seq(|gs|, k requires 0 <= k < |gs| => Render(gs[k]))
  }

  /** What `_chunk_text(pages, max_chars)` returns. */
  function ChunkSpec(pages: seq<Page>, maxChars: int): (r: seq<Chunk>)
    ensures |r| <= |Entries(pages)| <= |pages|
    ensures Entries(pages) == [] ==> r == []
  {
    GroupsFacts(Entries(pages), maxChars);
    RenderAll(Groups(Entries(pages), maxChars))
  }

  // ---------------------------------------------------------------------------
  // What the chunking promises

  /** Every group after the first was started because its first block did not fit in the group before it. */
  predicate Greedy(gs: seq<seq<Entry>>, maxChars: int)
  {
    forall k :: 0 < k < |gs| ==> Overflows(gs[k - 1], gs[k], maxChars)
  }

  /** Group `next` starts with a block that would have pushed `prev` past the limit. */
  predicate Overflows(prev: seq<Entry>, next: seq<Entry>, maxChars: int)
  {
    next != [] && Size(prev) + |next[0].block| > maxChars
  }

  /** A group stays within the limit unless it is a single block that alone exceeds it. */
  predicate WithinLimit(g: seq<Entry>, maxChars: int)
  {
    Size(g) <= maxChars || |g| <= 1
  }

  /** The invariant of the fold: the groups so far partition the blocks so far, greedily and within the limit. */
  predicate PackInv(es: seq<Entry>, st: PackState, maxChars: int)
  {
    PackShape(es, st) && PackLimits(st, maxChars) && PackGreedy(st, maxChars)
  }

  predicate PackShape(es: seq<Entry>, st: PackState)
  {
    && Flatten(st.done) + st.cur == es
    && (st.cur == [] <==> es == [])
    && (st.cur == [] ==> st.done == [])
  }

  predicate PackLimits(st: PackState, maxChars: int)
  {
    && (forall k :: 0 <= k < |st.done| ==> st.done[k] != [] && WithinLimit(st.done[k], maxChars))
    && WithinLimit(st.cur, maxChars)
    && st.size == Size(st.cur)
  }

  predicate PackGreedy(st: PackState, maxChars: int)
  {
    st.cur != [] ==> Greedy(st.done + [st.cur], maxChars)
  }

  lemma FlattenSnoc(gs: seq<seq<Entry>>, g: seq<Entry>)
    ensures Flatten(gs + [g]) == Flatten(gs) + g
  {
    FlattenAppend(gs, [g]);
    assert Flatten([g]) == g + Flatten([g][1..]);
    assert [g][1..] == [];
  }

  /** A step that flushes keeps the invariant. */
  lemma FlushStepInv(es: seq<Entry>, st: PackState, e: Entry, maxChars: int)
    requires PackInv(es, st, maxChars)
    requires st.size + |e.block| > maxChars && st.cur != []
    ensures PackInv(es + [e], PackStep(st, e, maxChars), maxChars)
  {
    var st' := PackStep(st, e, maxChars);
    assert st' == PackState(st.done + [st.cur], [e], |e.block|);
    FlattenSnoc(st.done, st.cur);
    GroupSnoc([], e);
    assert [] + [e] == [e];
    var gs: seq<seq<Entry>> := st.done + [st.cur];
    assert st'.done + [st'.cur] == gs + [[e]];
    assert Overflows(st.cur, [e], maxChars);
    forall k | 0 < k < |gs + [[e]]| ensures Overflows((gs + [[e]])[k - 1], (gs + [[e]])[k], maxChars) {
      if k < |gs| {
        assert (gs + [[e]])[k - 1] == gs[k - 1] && (gs + [[e]])[k] == gs[k];
      }
    }
  }

  /** A step that only buffers keeps the invariant. */
  lemma BufferStepInv(es: seq<Entry>, st: PackState, e: Entry, maxChars: int)
    requires PackInv(es, st, maxChars)
    requires !(st.size + |e.block| > maxChars && st.cur != [])
    ensures PackInv(es + [e], PackStep(st, e, maxChars), maxChars)
  {
    var st' := PackState(st.done, st.cur + [e], st.size + |e.block|);
    assert PackStep(st, e, maxChars) == st';
    BufferStepShape(es, st, e);
    BufferStepLimits(st, e, maxChars);
    if st.cur == [] {
      assert st.done == [] && st'.cur == [e];
      assert Greedy([] + [st'.cur], maxChars);
    } else {
      GreedyExtendLast(st.done, st.cur, e, maxChars);
    }
  }

  lemma BufferStepShape(es: seq<Entry>, st: PackState, e: Entry)
    requires PackShape(es, st)
    ensures PackShape(es + [e], PackState(st.done, st.cur + [e], st.size + |e.block|))
  {
    assert Flatten(st.done) + (st.cur + [e]) == es + [e];
  }

  lemma BufferStepLimits(st: PackState, e: Entry, maxChars: int)
    requires PackLimits(st, maxChars) && PackShape(Flatten(st.done) + st.cur, st)
    requires !(st.size + |e.block| > maxChars && st.cur != [])
    ensures PackLimits(PackState(st.done, st.cur + [e], st.size + |e.block|), maxChars)
  {
    GroupSnoc(st.cur, e);
    if st.cur == [] {
      assert st.cur + [e] == [e];
    }
  }

  /** Adding a block to the last group keeps the groups greedy. */
  lemma GreedyExtendLast(done: seq<seq<Entry>>, cur: seq<Entry>, e: Entry, maxChars: int)
    requires cur != [] && Greedy(done + [cur], maxChars)
    ensures Greedy(done + [cur + [e]], maxChars)
  {
    var gs: seq<seq<Entry>>, gs': seq<seq<Entry>> := done + [cur], done + [cur + [e]];
    forall k | 0 < k < |gs'| ensures Overflows(gs'[k - 1], gs'[k], maxChars) {
      assert gs'[k - 1] == gs[k - 1];
      if k < |gs'| - 1 {
        assert gs'[k] == gs[k];
      } else {
        assert gs'[k][0] == gs[k][0];
      }
    }
  }

  lemma {:induction false} PackInvariant(es: seq<Entry>, maxChars: int)
    ensures PackInv(es, Pack(es, maxChars), maxChars)
  {
    if es != [] {
      var init, e := es[..|es| - 1], es[|es| - 1];
      assert es == init + [e];
      PackInvariant(init, maxChars);
      var st := Pack(init, maxChars);
      if st.size + |e.block| > maxChars && st.cur != [] {
        FlushStepInv(init, st, e, maxChars);
      } else {
        BufferStepInv(init, st, e, maxChars);
      }
    }
  }

  /**
   * The groups that become chunks: together they are exactly the blocks, in
   * order, none is empty, each is within the limit unless it is a single
   * oversized block, and a new group is started only when the next block
   * would not fit in the current one.
   */
  lemma GroupsFacts(es: seq<Entry>, maxChars: int)
    ensures Flatten(Groups(es, maxChars)) == es
    ensures forall k :: 0 <= k < |Groups(es, maxChars)| ==> Groups(es, maxChars)[k] != [] && WithinLimit(Groups(es, maxChars)[k], maxChars)
    ensures Greedy(Groups(es, maxChars), maxChars)
    ensures |Groups(es, maxChars)| <= |es|
  {
    var st := Pack(es, maxChars);
    PackInvariant(es, maxChars);
    if st.cur != [] {
      FlattenSnoc(st.done, st.cur);
    } else {
      assert st.done + [] == st.done;
    }
    GroupsCount(Groups(es, maxChars));
  }

  /** Non-empty groups are no more numerous than their elements. */
  lemma {:induction false} GroupsCount(gs: seq<seq<Entry>>)
    requires forall k :: 0 <= k < |gs| ==> gs[k] != []
    ensures |gs| <= |Flatten(gs)|
  {
    if gs != [] {
      GroupsCount(gs[1..]);
    }
  }

  lemma {:induction false} JoinSnoc(sep: string, xs: seq<string>, x: string)
    requires xs != []
    ensures Join(sep, xs + [x]) == Join(sep, xs) + sep + x
  {
    if |xs| > 1 {
      assert (xs + [x])[1..] == xs[1..] + [x];
      JoinSnoc(sep, xs[1..], x);
    }
  }

  /** The text of a chunk is its blocks plus two characters per separator. */
  lemma {:induction false} JoinedSize(g: seq<Entry>)
    requires g != []
    ensures |Join("\n\n", BlocksOf(g))| == Size(g) + 2 * (|g| - 1)
  {
    if |g| > 1 {
      var init := g[..|g| - 1];
      var e := g[|g| - 1];
      assert g == init + [e];
      GroupSnoc(init, e);
      JoinSnoc("\n\n", BlocksOf(init), e.block);
      JoinedSize(init);
    }
  }

  /** The joined text starts with the first block's first character and ends with the last block's last. */
  lemma {:induction false} JoinEnds(sep: string, xs: seq<string>)
    requires xs != [] && forall k :: 0 <= k < |xs| ==> xs[k] != []
    ensures |Join(sep, xs)| > 0
    ensures Join(sep, xs)[0] == xs[0][0]
    ensures Join(sep, xs)[|Join(sep, xs)| - 1] == xs[|xs| - 1][|xs[|xs| - 1]| - 1]
  {
    if |xs| > 1 {
      var rest := xs[1..];
      assert forall k :: 0 <= k < |rest| ==> rest[k] == xs[k + 1];
      JoinEnds(sep, rest);
      var j := Join(sep, rest);
      var r := xs[0] + sep + j;
      assert Join(sep, xs) == r;
      assert r[0] == xs[0][0];
      assert r[|r| - 1] == j[|j| - 1];
      assert rest[|rest| - 1] == xs[|xs| - 1];
    }
  }

  /** A block starts with its "[PAGE n]" header and ends with the last character of the stripped page text. */
  lemma EntryEnds(p: Page)
    requires EntryOf(p).Some?
    ensures BlockClean(EntryOf(p).value.block)
  {
    var t := Strip(p.text);
    var b := Header(p.page) + "\n" + t;
    assert b[0] == '[';
    assert b[|b| - 1] == t[|t| - 1];
  }

  /** Every entry comes from a page with text, in page order. */
  lemma {:induction false} EntriesFromPages(pages: seq<Page>)
    ensures |Entries(pages)| <= |pages|
    ensures forall e :: e in Entries(pages) ==> exists p :: p in pages && EntryOf(p) == Some(e)
  {
    if pages != [] {
      var init := pages[..|pages| - 1];
      EntriesFromPages(init);
      forall e | e in Entries(pages) ensures exists p :: p in pages && EntryOf(p) == Some(e) {
        if e in Entries(init) {
          var p :| p in init && EntryOf(p) == Some(e);
          assert p in pages;
        } else {
          assert pages[|pages| - 1] in pages;
        }
      }
    }
  }

  /** Each chunk lists the distinct pages of its blocks, in ascending order. */
  lemma ChunkPages(pages: seq<Page>, maxChars: int, k: nat)
    requires k < |ChunkSpec(pages, maxChars)|
    ensures StrictlyIncreasing(ChunkSpec(pages, maxChars)[k].pages)
    ensures forall n :: n in ChunkSpec(pages, maxChars)[k].pages <==>
      exists e :: e in Groups(Entries(pages), maxChars)[k] && e.page == n
  {
    var g := Groups(Entries(pages), maxChars)[k];
    assert ChunkSpec(pages, maxChars)[k] == Render(g);
    forall n ensures n in PagesOf(g) <==> exists e :: e in g && e.page == n {
      if n in PagesOf(g) {
        var j :| 0 <= j < |g| && PagesOf(g)[j] == n;
        assert g[j] in g;
      }
      if exists e :: e in g && e.page == n {
        var e :| e in g && e.page == n;
        var j :| 0 <= j < |g| && g[j] == e;
        assert PagesOf(g)[j] == n;
      }
    }
  }

  /** Every block of every group comes from a page with text. */
  lemma GroupEntriesFromPages(pages: seq<Page>, maxChars: int, k: nat)
    requires k < |Groups(Entries(pages), maxChars)|
    ensures forall e :: e in Groups(Entries(pages), maxChars)[k] ==> exists p :: p in pages && EntryOf(p) == Some(e)
  {
    var es := Entries(pages);
    GroupsFacts(es, maxChars);
    FlattenMembership(Groups(es, maxChars));
    EntriesFromPages(pages);
  }

  /**
   * A chunk's text is its blocks joined by blank lines, which the final
   * `strip()` leaves unchanged; so its length is the buffered size plus two
   * characters per separator.
   */
  lemma ChunkTextIsJoinedBlocks(pages: seq<Page>, maxChars: int, k: nat)
    requires k < |ChunkSpec(pages, maxChars)|
    ensures var g := Groups(Entries(pages), maxChars)[k];
      && g != []
      && ChunkSpec(pages, maxChars)[k].text == Join("\n\n", BlocksOf(g))
      && |ChunkSpec(pages, maxChars)[k].text| == Size(g) + 2 * (|g| - 1)
  {
    var g := Groups(Entries(pages), maxChars)[k];
    GroupBlocksClean(pages, maxChars, k);
    RenderedText(g);
    assert ChunkSpec(pages, maxChars)[k] == Render(g);
  }

  /** A group of clean blocks renders to its blocks joined by blank lines. */
  lemma RenderedText(g: seq<Entry>)
    requires g != [] && forall j :: 0 <= j < |g| ==> BlockClean(g[j].block)
    ensures Render(g).text == Join("\n\n", BlocksOf(g))
    ensures |Render(g).text| == Size(g) + 2 * (|g| - 1)
  {
    var blocks := BlocksOf(g);
    var joined := Join("\n\n", blocks);
    JoinEnds("\n\n", blocks);
    assert joined[0] == g[0].block[0] && joined[|joined| - 1] == g[|g| - 1].block[|g[|g| - 1].block| - 1];
    StripClean(joined);
    JoinedSize(g);
  }

  /** The blocks of a group are non-empty and none starts or ends with white space. */
  lemma GroupBlocksClean(pages: seq<Page>, maxChars: int, k: nat)
    requires k < |Groups(Entries(pages), maxChars)|
    ensures var g := Groups(Entries(pages), maxChars)[k];
      g != [] && forall j :: 0 <= j < |g| ==> BlockClean(g[j].block)
  {
    var es := Entries(pages);
    var g := Groups(es, maxChars)[k];
    GroupsFacts(es, maxChars);
    GroupEntriesFromPages(pages, maxChars, k);
    forall j | 0 <= j < |g| ensures BlockClean(g[j].block) {
      assert g[j] in g;
      var p :| p in pages && EntryOf(p) == Some(g[j]);
      EntryEnds(p);
    }
  }

  predicate BlockClean(b: string)
  {
    b != [] && !IsSpace(b[0]) && !IsSpace(b[|b| - 1])
  }

  // ---------------------------------------------------------------------------
  // The chunker as the source runs it: a buffer, a size counter and a flush

  class Chunker {
    var chunks: seq<Chunk>
    var buf: seq<string>
    var bufPages: seq<int>
    var size: int

    constructor ()
      ensures chunks == [] && buf == [] && bufPages == [] && size == 0
    {
      chunks, buf, bufPages, size := [], [], [], 0;
    }

    /** Buffer and counters agree with a group of entries. */
    predicate Holds(g: seq<Entry>)
      reads this
    {
      buf == BlocksOf(g) && bufPages == PagesOf(g) && size == Size(g)
    }

    /** The chunker's state is the fold state `st`: its chunks are the rendered completed groups, its buffer the current group. */
    ghost predicate Models(st: PackState)
      reads this
    {
      chunks == RenderAll(st.done) && Holds(st.cur) && st.size == Size(st.cur)
    }

    /** `flush()`: a non-empty buffer becomes one chunk and the buffer is emptied. */
    method Flush()
      modifies this
      ensures old(buf) == [] ==> chunks == old(chunks) && buf == old(buf) && bufPages == old(bufPages) && size == old(size)
      ensures old(buf) != [] ==>
        chunks == old(chunks) + [Chunk(SortedUnique(old(bufPages)), Strip(Join("\n\n", old(buf))))]
        && buf == [] && bufPages == [] && size == 0
    {
      if buf == [] {
        return;
      }
      chunks := chunks + [Chunk(SortedUnique(bufPages), Strip(Join("\n\n", buf)))];
      buf, bufPages, size := [], [], 0;
    }

    /** The loop body for a page with text: flush if the block would overflow, then buffer the block. */
    method Add(page: int, block: string, maxChars: int)
      modifies this
      ensures old(size) + |block| > maxChars && old(buf) != [] ==>
        chunks == old(chunks) + [Chunk(SortedUnique(old(bufPages)), Strip(Join("\n\n", old(buf))))]
        && buf == [block] && bufPages == [page] && size == |block|
      ensures !(old(size) + |block| > maxChars && old(buf) != []) ==>
        chunks == old(chunks) && buf == old(buf) + [block] && bufPages == old(bufPages) + [page]
        && size == old(size) + |block|
    {
      if size + |block| > maxChars && buf != [] {
        Flush();
      }
      buf := buf + [block];
      bufPages := bufPages + [page];
      size := size + |block|;
    }

    /** One iteration of the loop over the pages: a page whose stripped text is empty is skipped. */
    method AddPage(p: Page, maxChars: int, ghost st: PackState)
      requires Models(st)
      modifies this
      ensures Models(Advance(st, p, maxChars))
    {
      var t := Strip(p.text);
      if t != [] {
        var block := Header(p.page) + "\n" + t;
        ghost var e := Entry(p.page, block);
        assert EntryOf(p) == Some(e);
        ghost var chunks0, buf0, pages0, size0 := chunks, buf, bufPages, size;
        Add(p.page, block, maxChars);
        AddIsPackStep(st, e, maxChars, chunks0, buf0, pages0, size0, chunks, buf, bufPages, size);
      }
    }
  }

  lemma PackSnoc(es: seq<Entry>, e: Entry, maxChars: int)
    ensures Pack(es + [e], maxChars) == PackStep(Pack(es, maxChars), e, maxChars)
  {
    assert (es + [e])[..|es|] == es;
  }

  lemma EntriesSnoc(pages: seq<Page>, i: nat)
    requires i < |pages|
    ensures Entries(pages[..i + 1]) == Entries(pages[..i]) + match EntryOf(pages[i]) case Some(e) => [e] case None => []
  {
    assert pages[..i + 1][..i] == pages[..i];
  }

  lemma GroupSnoc(g: seq<Entry>, e: Entry)
    ensures BlocksOf(g + [e]) == BlocksOf(g) + [e.block]
    ensures PagesOf(g + [e]) == PagesOf(g) + [e.page]
    ensures Size(g + [e]) == Size(g) + |e.block|
  {
    assert (g + [e])[..|g|] == g;
  }

  lemma RenderAllSnoc(gs: seq<seq<Entry>>, g: seq<Entry>)
    ensures RenderAll(gs + [g]) == RenderAll(gs) + [Render(g)]
  {
  }

  /** The `size` counter always equals the total length of the buffered blocks. */
  lemma {:induction false} PackSize(es: seq<Entry>, maxChars: int)
    ensures Pack(es, maxChars).size == Size(Pack(es, maxChars).cur)
  {
    if es != [] {
      var st := Pack(es[..|es| - 1], maxChars);
      var e := es[|es| - 1];
      PackSize(es[..|es| - 1], maxChars);
      GroupSnoc(st.cur, e);
      GroupSnoc([], e);
      assert [] + [e] == [e];
    }
  }

  /** Buffering one block as `Add` does moves buffer and chunks along with one PackStep. */
  lemma AddIsPackStep(st: PackState, e: Entry, maxChars: int,
                      chunks: seq<Chunk>, buf: seq<string>, bufPages: seq<int>, size: int,
                      chunks': seq<Chunk>, buf': seq<string>, bufPages': seq<int>, size': int)
    requires st.size == Size(st.cur)
    requires chunks == RenderAll(st.done) && buf == BlocksOf(st.cur) && bufPages == PagesOf(st.cur) && size == Size(st.cur)
    requires size + |e.block| > maxChars && buf != [] ==>
      chunks' == chunks + [Chunk(SortedUnique(bufPages), Strip(Join("\n\n", buf)))]
      && buf' == [e.block] && bufPages' == [e.page] && size' == |e.block|
    requires !(size + |e.block| > maxChars && buf != []) ==>
      chunks' == chunks && buf' == buf + [e.block] && bufPages' == bufPages + [e.page] && size' == size + |e.block|
    ensures chunks' == RenderAll(PackStep(st, e, maxChars).done)
    ensures buf' == BlocksOf(PackStep(st, e, maxChars).cur)
    ensures bufPages' == PagesOf(PackStep(st, e, maxChars).cur)
    ensures size' == Size(PackStep(st, e, maxChars).cur) == PackStep(st, e, maxChars).size
  {
    GroupSnoc(st.cur, e);
    GroupSnoc([], e);
    assert [] + [e] == [e];
    RenderAllSnoc(st.done, st.cur);
  }

  /** The fold after one more page: a page with text moves it on by one step, a page without leaves it. */
  function Advance(st: PackState, p: Page, maxChars: int): PackState
  {
    match EntryOf(p)
    case Some(e) => PackStep(st, e, maxChars)
    case None => st
  }

  lemma PagePack(pages: seq<Page>, i: nat, maxChars: int)
    requires i < |pages|
    ensures Pack(Entries(pages[..i + 1]), maxChars) == Advance(Pack(Entries(pages[..i]), maxChars), pages[i], maxChars)
  {
    var es := Entries(pages[..i]);
    EntriesSnoc(pages, i);
    match EntryOf(pages[i]) {
      case Some(e) =>
        assert Entries(pages[..i + 1]) == es + [e];
        PackSnoc(es, e, maxChars);
      case None =>
        assert Entries(pages[..i + 1]) == es + [] == es;
    }
  }

  /** `_chunk_text(pages, max_chars)`, run as the source runs it, gives the chunks the specification describes. */
  method ChunkText(pages: seq<Page>, maxChars: int) returns (chunks: seq<Chunk>)
    ensures chunks == ChunkSpec(pages, maxChars)
  {
    var c := new Chunker();
    var i := 0;
    ghost var st := Pack([], maxChars);
    while i < |pages|
      invariant 0 <= i <= |pages|
      invariant st == Pack(Entries(pages[..i]), maxChars)
      invariant c.Models(st)
    {
      PagePack(pages, i, maxChars);
      c.AddPage(pages[i], maxChars, st);
      st := Advance(st, pages[i], maxChars);
      i := i + 1;
    }
    assert pages[..i] == pages;
    RenderAllSnoc(st.done, st.cur);
    c.Flush();
    chunks := c.chunks;
  }
}
