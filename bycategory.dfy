/** GET /api/categories/<id>/questions: the questions of one category. */
module ByCategory {
  import opened Records
  import opened Sequences
  import opened Categories

  /** The questions whose category is `id`, in store order. */
  function InCategory(qs: seq<Question>, id: int): (r: seq<Question>)
    ensures |r| <= |qs|
    ensures forall q :: q in r <==> q in qs && q.category == id
    ensures forall q :: multiset(r)[q] == if q.category == id then multiset(qs)[q] else 0
  {
    FilterMultiset(qs, (q: Question) => q.category == id);
    Filter(qs, (q: Question) => q.category == id)
  }

  datatype CategoryQuestions = CategoryQuestions(
    questions: seq<Question>,
    totalQuestions: int,
    currentCategory: Option<Category>)

  /** The handler: 404 only when no question has the category AND no category
      record has the id; otherwise the matching questions (possibly none, each
      as often as the store holds it) and the category record (possibly absent).
      The path segment is an unsigned integer, so `id` is a `nat`. */
  function QuestionsByCategory(qs: seq<Question>, cs: seq<Category>, id: nat)
    : (r: Outcome<CategoryQuestions>)
    ensures r.Fail? <==>
      (forall q :: q in qs ==> q.category != id) && (forall c :: c in cs ==> c.id != id)
    ensures r.Fail? ==> r.error == NotFound
    ensures r.Ok? ==>
      && r.code == 200
      && r.body.totalQuestions == |r.body.questions|
      && (forall q :: q in r.body.questions <==> q in qs && q.category == id)
      && (forall q :: multiset(r.body.questions)[q] == if q.category == id then multiset(qs)[q] else 0)
      && (r.body.currentCategory.Some? <==> id in Ids(cs))
      && (r.body.currentCategory.Some? ==>
            r.body.currentCategory.value in cs && r.body.currentCategory.value.id == id)
  {
    var questions := InCategory(qs, id);
    var category := FindCategory(cs, id);
    if |questions| == 0 && category.None? then
      Fail(NotFound)
    else
      assert |questions| > 0 ==> questions[0] in questions;
      Ok(200, CategoryQuestions(questions, |questions|, category))
  }
}
