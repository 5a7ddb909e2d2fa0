/** KDP preflight (kern/kdp_preflight.py): pads a page list to a minimum
    length with filler ("reflection") pages, never touching the pages that
    are already there. A page is an opaque value of type `P`; the filler
    factory is a function from the 1-based page number to a page. */
module KdpPreflight {
  import opened Wrappers

  /** The fillers numbered `first`, `first + 1`, ... (`count` of them). */
  function Fillers<P>(first: int, count: nat, makeFiller: int -> P): (r: seq<P>)
    ensures |r| == count
    ensures forall k :: 0 <= k < count ==> r[k] == makeFiller(first + k)
  {
    seq(count, k => makeFiller(first + k))
  }

  /** What `ensure_min_pages` returns for the page list `pages` (`None` or
      a list, as Python's `list(pages or [])`). */
  function Padded<P>(pages: Option<seq<P>>, minPages: int, makeFiller: int -> P): seq<P> {
    var out := pages.GetOr([]);
    if minPages <= 0 || |out| >= minPages then out
    else out + Fillers(|out| + 1, minPages - |out|, makeFiller)
  }

  /** `ensure_min_pages`: copies the input, then appends one filler per
      missing page, numbering them after the existing pages. */
  method EnsureMinPages<P>(pages: Option<seq<P>>, minPages: int, makeFiller: int -> P)
    returns (out: seq<P>)
    ensures out == Padded(pages, minPages, makeFiller)
  {
    out := pages.GetOr([]);
    if minPages <= 0 {
      return;
    }
    var n := |out|;
    if n >= minPages {
      return;
    }
    var needed := minPages - n;
    var startIdx := n + 1;
    for k := 0 to needed
      invariant |out| == n + k
      invariant out == pages.GetOr([]) + Fillers(startIdx, k, makeFiller)
    {
      var pageNo := startIdx + k;
      out := out + [makeFiller(pageNo)];
    }
  }

  /** Length: padding reaches exactly `min_pages`, or keeps a longer list. */
  lemma PaddedLength<P>(pages: Option<seq<P>>, minPages: int, makeFiller: int -> P)
    ensures var n := |pages.GetOr([])|;
      |Padded(pages, minPages, makeFiller)| == if minPages <= 0 then n else Max(n, minPages)
  {
  }

  function Max(a: int, b: int): int { if a >= b then a else b }

  /** The existing pages stay in their positions, so nothing is truncated
      or reordered; a `None` input behaves as the empty list. */
  lemma PaddedKeepsPrefix<P>(pages: Option<seq<P>>, minPages: int, makeFiller: int -> P)
    ensures var out := Padded(pages, minPages, makeFiller);
      |out| >= |pages.GetOr([])| && out[..|pages.GetOr([])|] == pages.GetOr([])
  {
  }

  /** With `min_pages <= 0`, or an input already long enough, the result
      is an element-for-element copy of the input. */
  lemma PaddedUnchanged<P>(pages: Option<seq<P>>, minPages: int, makeFiller: int -> P)
    requires minPages <= 0 || |pages.GetOr([])| >= minPages
    ensures Padded(pages, minPages, makeFiller) == pages.GetOr([])
  {
  }

  /** The k-th filler is built with page number n + 1 + k, so the fillers
      are numbered n + 1 .. min_pages consecutively. */
  lemma PaddedFillerNumbers<P>(pages: Option<seq<P>>, minPages: int, makeFiller: int -> P, k: nat)
    requires |pages.GetOr([])| + k < minPages
    ensures var n := |pages.GetOr([])|;
      |Padded(pages, minPages, makeFiller)| == minPages &&
      Padded(pages, minPages, makeFiller)[n + k] == makeFiller(n + 1 + k)
  {
  }

  /** Idempotence: padding an already padded list with the same minimum
      returns it unchanged. */
  lemma PaddedIdempotent<P>(pages: Option<seq<P>>, minPages: int, makeFiller: int -> P)
    ensures var once := Padded(pages, minPages, makeFiller);
      Padded(Some(once), minPages, makeFiller) == once
  {
  }

  /** Ten pages padded to 24 keep p1..p10 in front and add fillers
      numbered 11..24. */
  lemma TenPagesPaddedTo24<P>(pages: seq<P>, makeFiller: int -> P)
    requires |pages| == 10
    ensures var out := Padded(Some(pages), 24, makeFiller);
      |out| == 24 && out[..10] == pages &&
      forall k :: 10 <= k < 24 ==> out[k] == makeFiller(k + 1)
  {
  }
}
