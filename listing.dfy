/** GET /api/questions: one page of questions with the category map. */
module Listing {
  import opened Records
  import opened Pagination
  import opened Categories

  /** The success payload: the page, the size of the whole store, the
      id -> type map and the first category record in store order. */
  datatype QuestionsPage = QuestionsPage(
    questions: seq<Question>,
    totalQuestions: int,
    categories: map<int, string>,
    currentCategory: Category)

  /** The handler over the store `qs`, `cs`. An empty page is 404; a
      non-empty page with no category rows fails on `categories[0]`, which
      surfaces as 500. */
  method GetQuestions(qs: seq<Question>, cs: seq<Category>, pageArg: Option<int>)
    returns (r: Outcome<QuestionsPage>)
    ensures r == Fail(NotFound) <==> Paginate(qs, PageNumber(pageArg)) == []
    ensures PageNumber(pageArg) >= 1 ==>
      (r == Fail(NotFound) <==> |qs| <= (PageNumber(pageArg) - 1) * QuestionsPerPage)
    ensures r == Fail(InternalError) <==> Paginate(qs, PageNumber(pageArg)) != [] && cs == []
    ensures r.Fail? ==> r.error in {NotFound, InternalError}
    ensures r.Ok? ==>
      && r.code == 200
      && cs != []
      && r.body.questions == Paginate(qs, PageNumber(pageArg))
      && 1 <= |r.body.questions| <= QuestionsPerPage
      && r.body.totalQuestions == |qs|
      && r.body.categories.Keys == Ids(cs)
      && r.body.categories == CategoryMap(cs)
      && r.body.currentCategory == cs[0]
  {
    var page := PageNumber(pageArg);
    var current := Paginate(qs, page);
    var categories := FormatCategories(cs);
    if page >= 1 {
      EmptyPageBeyondEnd(qs, page);
    }
    if |current| == 0 {
      return Fail(NotFound);
    }
    if |cs| == 0 {
      return Fail(InternalError);
    }
    r := Ok(200, QuestionsPage(current, |qs|, categories, cs[0]));
  }
}
