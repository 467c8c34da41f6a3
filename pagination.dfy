/** Page slicing of the question listing.

    The handler reads `page` from the query string (default 1), computes
    start = (page - 1) * 10 and end = start + 10, and slices the formatted
    list with Python's `list[start:end]`, whose indices may be negative. */
module Pagination {
  import opened Records

  const QuestionsPerPage: int := 10

  function Min(a: int, b: int): int { if a <= b then a else b }

  function Max(a: int, b: int): int { if a <= b then b else a }

  /** The page number the handler uses: the query argument when it is present
      and parses as an integer, otherwise 1. */
  function PageNumber(arg: Option<int>): int
  {
    match arg
    case None => 1
    case Some(n) => n
  }

  /** Python's normalisation of a slice bound against a list of length n:
      a negative bound counts from the end, and the result is clamped to [0, n]. */
  function PyIndex(i: int, n: nat): (k: nat)
    ensures k <= n
  {
    if i < 0 then (if n + i < 0 then 0 else n + i)
    else if i > n then n
    else i
  }

  /** `s[start:end]` with Python's semantics (step 1): the elements from the
      normalised start up to the normalised end, in order, or none when the
      normalised end does not lie after the normalised start. */
  function PySlice<T>(s: seq<T>, start: int, end: int): (r: seq<T>)
    ensures |r| == Max(0, PyIndex(end, |s|) - PyIndex(start, |s|))
    ensures forall k :: 0 <= k < |r| ==> r[k] == s[PyIndex(start, |s|) + k]
  {
    var lo, hi := PyIndex(start, |s|), PyIndex(end, |s|);
    if lo < hi then s[lo..hi] else []
  }

  /** The page `page` of `s`: ten elements starting at (page - 1) * 10, taken
      with Python's slicing, so negative bounds count from the end. */
  function Paginate<T>(s: seq<T>, page: int): (r: seq<T>)
    ensures |r| <= QuestionsPerPage
    ensures page >= 1 ==>
      var start := (page - 1) * QuestionsPerPage;
      r == s[Min(start, |s|)..Min(start + QuestionsPerPage, |s|)]
    ensures page >= 1 ==>
      |r| == Min(QuestionsPerPage, Max(0, |s| - (page - 1) * QuestionsPerPage))
  {
    var start := (page - 1) * QuestionsPerPage;
    PySlice(s, start, start + QuestionsPerPage)
  }

  /** For a page number of at least 1, element k of the page is element
      (page - 1) * 10 + k of the whole listing, in store order. */
  lemma PageElements<T>(s: seq<T>, page: int, k: int)
    requires page >= 1 && 0 <= k < |Paginate(s, page)|
    ensures (page - 1) * QuestionsPerPage + k < |s|
    ensures Paginate(s, page)[k] == s[(page - 1) * QuestionsPerPage + k]
  {
  }

  /** A page of at least 1 is empty exactly when it starts past the last
      question: the listing signals 404 there whatever the store holds before it. */
  lemma EmptyPageBeyondEnd<T>(s: seq<T>, page: int)
    requires page >= 1
    ensures Paginate(s, page) == [] <==> |s| <= (page - 1) * QuestionsPerPage
  {
  }

  /** Page 0 slices [-10:0], which is always empty. */
  lemma PageZeroIsEmpty<T>(s: seq<T>)
    ensures Paginate(s, 0) == []
  {
  }

  /** A negative page slices [page*10 - 10 : page*10] counting from the end of
      the listing, so it returns rows once the listing is long enough. */
  lemma NegativePageCountsFromEnd<T>(s: seq<T>, page: int)
    requires page < 0
    ensures var end := |s| + page * QuestionsPerPage;
      Paginate(s, page) == if end <= 0 then [] else s[Max(0, end - QuestionsPerPage)..end]
  {
  }
}
