/** POST /api/quizzes: the next question of a quiz round. */
module Quiz {
  import opened Records
  import opened Sequences
  import opened ByCategory

  /** The request body. `categoryId` is None when `quiz_category` is absent or
      has no `id`; `previousQuestions` is None when that key is absent. */
  datatype QuizRequest = QuizRequest(categoryId: Option<int>, previousQuestions: Option<seq<int>>)

  /** A question may be asked: it is of the round's category and not yet seen. */
  predicate IsCandidate(q: Question, category: int, previous: seq<int>)
  {
    q.category == category && q.id !in previous
  }

  /** Reference definition of the pick: the first candidate in store order. */
  function QuizPick(qs: seq<Question>, category: int, previous: seq<int>): (r: Option<Question>)
    ensures r.Some? ==>
      exists i :: 0 <= i < |qs| && qs[i] == r.value && IsCandidate(qs[i], category, previous) &&
        forall j :: 0 <= j < i ==> !IsCandidate(qs[j], category, previous)
    ensures r.None? <==> forall i :: 0 <= i < |qs| ==> !IsCandidate(qs[i], category, previous)
  {
    if qs == [] then None
    else if IsCandidate(qs[0], category, previous) then Some(qs[0])
    else
      var rest := QuizPick(qs[1..], category, previous);
      assert forall i :: 1 <= i < |qs| ==> qs[i] == qs[1..][i - 1];
      if rest.Some? then
        var i :| 0 <= i < |qs[1..]| && qs[1..][i] == rest.value &&
          IsCandidate(qs[1..][i], category, previous) &&
          forall j :: 0 <= j < i ==> !IsCandidate(qs[1..][j], category, previous);
        assert qs[i + 1] == rest.value;
        rest
      else
        rest
  }

  /** The survivors of the quiz loop: the questions whose id is not in
      `previous`, in the order given. */
  function Unseen(qs: seq<Question>, previous: seq<int>): (r: seq<Question>)
    ensures forall q :: q in r <==> q in qs && q.id !in previous
  {
    Filter(qs, NotSeen(previous))
  }

  function NotSeen(previous: seq<int>): Question -> bool
  {
    (q: Question) => q.id !in previous
  }

  /** One more iteration of the loop appends the next question when it is unseen. */
  lemma UnseenStep(qs: seq<Question>, i: int, previous: seq<int>)
    requires 0 <= i < |qs|
    ensures Unseen(qs[..i + 1], previous) ==
      Unseen(qs[..i], previous) + (if qs[i].id !in previous then [qs[i]] else [])
  {
    assert qs[..i + 1] == qs[..i] + [qs[i]];
    FilterSnoc(qs[..i], qs[i], NotSeen(previous));
  }

  /** Taking the first survivor of both filters is the reference pick. */
  lemma {:induction false} FirstSurvivorIsPick(qs: seq<Question>, category: int, previous: seq<int>)
    ensures var u := Unseen(InCategory(qs, category), previous);
      QuizPick(qs, category, previous) == if u == [] then None else Some(u[0])
  {
    if qs != [] {
      FirstSurvivorIsPick(qs[1..], category, previous);
      var h := qs[0];
      if h.category == category {
        var rest := InCategory(qs[1..], category);
        assert InCategory(qs, category) == [h] + rest;
        assert ([h] + rest)[1..] == rest;
      } else {
        assert InCategory(qs, category) == InCategory(qs[1..], category);
      }
    }
  }

  /** The quiz loop: collect the questions whose id is not in `previous`,
      then take the first of them, or null. */
  method FirstUnseen(questions: seq<Question>, previous: seq<int>) returns (question: Option<Question>)
    ensures var u := Unseen(questions, previous);
      question == if u == [] then None else Some(u[0])
  {
    var filtered: seq<Question> := [];
    var i := 0;
    assert questions[..0] == [];
    while i < |questions|
      invariant 0 <= i <= |questions|
      invariant filtered == Unseen(questions[..i], previous)
    {
      UnseenStep(questions, i, previous);
      if questions[i].id !in previous {
        filtered := filtered + [questions[i]];
      }
      i := i + 1;
    }
    assert questions[..i] == questions;
    question := if |filtered| > 0 then Some(filtered[0]) else None;
  }

  /** The handler. A missing category is 422 (`quiz_category['id']` raises).
      A missing `previous_questions` raises at the first `in` test of the
      loop, so it is 422 when the category has a question and 200 with null
      when it has none. */
  method GetQuizQuestion(qs: seq<Question>, req: QuizRequest) returns (r: Outcome<Option<Question>>)
    ensures req.categoryId.None? ==> r == Fail(Unprocessable)
    ensures req.categoryId.Some? && req.previousQuestions.None? ==>
      r == if InCategory(qs, req.categoryId.value) == [] then Ok(200, None) else Fail(Unprocessable)
    ensures req.categoryId.Some? && req.previousQuestions.Some? ==>
      r == Ok(200, QuizPick(qs, req.categoryId.value, req.previousQuestions.value))
  {
    if req.categoryId.None? {
      return Fail(Unprocessable);
    }
    var category := req.categoryId.value;
    var questions := InCategory(qs, category);
    if req.previousQuestions.None? {
      if |questions| > 0 {
        return Fail(Unprocessable);
      }
      return Ok(200, None);
    }
    var previous := req.previousQuestions.value;
    var question := FirstUnseen(questions, previous);
    FirstSurvivorIsPick(qs, category, previous);
    r := Ok(200, question);
  }
}
