/** The question table as a mutable store: delete one row by id, insert one row. */
module QuestionStore {
  import opened Records

  /** The lookup by primary key: the position of the row with that id, if any. */
  function IndexOfId(qs: seq<Question>, id: int): (r: Option<nat>)
    ensures r.Some? ==>
      r.value < |qs| && qs[r.value].id == id && forall j :: 0 <= j < r.value ==> qs[j].id != id
    ensures r.None? <==> forall q :: q in qs ==> q.id != id
  {
    if qs == [] then None
    else if qs[0].id == id then Some(0)
    else
      match IndexOfId(qs[1..], id)
      case None => None
      case Some(k) => Some(k + 1)
  }

  /** Removing the row at k from a table with unique ids removes exactly that
      id: every other row stays, the ids stay unique and the count drops by one. */
  lemma RemoveAtRemovesOnlyThatId(qs: seq<Question>, k: nat)
    requires UniqueIds(qs) && k < |qs|
    ensures var rest := qs[..k] + qs[k + 1..];
      && |rest| == |qs| - 1
      && UniqueIds(rest)
      && (forall q :: q in rest ==> q.id != qs[k].id)
      && (forall q :: q in qs && q.id != qs[k].id ==> q in rest)
  {
  }

  /** A request body for POST /api/questions. `difficulty` and `category` are
      None when the key is absent or `int(...)` cannot convert it. */
  datatype NewQuestion = NewQuestion(question: string, answer: string, difficulty: Option<int>, category: Option<int>)

  class Store {
    var questions: seq<Question>
    /** The id the table's identity column hands out next. */
    var nextId: nat

    ghost predicate Valid()
      reads this
    {
      UniqueIds(questions) && forall q :: q in questions ==> q.id < nextId
    }

    constructor (questions: seq<Question>, nextId: nat)
      requires UniqueIds(questions) && forall q :: q in questions ==> q.id < nextId
      ensures Valid()
      ensures this.questions == questions && this.nextId == nextId
    {
      this.questions := questions;
      this.nextId := nextId;
    }

    /** DELETE /api/questions/<id>. The path segment is an unsigned integer,
        so `id` is a `nat`. */
    method DeleteQuestion(id: nat) returns (r: Outcome<()>)
      requires Valid()
      modifies this
      ensures Valid()
      ensures nextId == old(nextId)
      ensures r == Fail(NotFound) <==> forall q :: q in old(questions) ==> q.id != id
      ensures r.Fail? ==> r.error == NotFound && questions == old(questions)
      ensures r.Ok? ==>
        && r.code == 200
        && |questions| == |old(questions)| - 1
        && (exists k :: 0 <= k < |old(questions)| && old(questions)[k].id == id &&
              questions == old(questions)[..k] + old(questions)[k + 1..])
        && (forall q :: q in questions <==> q in old(questions) && q.id != id)
    {
      var found := IndexOfId(questions, id);
      if found.None? {
        return Fail(NotFound);
      }
      var k := found.value;
      RemoveAtRemovesOnlyThatId(questions, k);
      questions := questions[..k] + questions[k + 1..];
      r := Ok(200, ());
    }

    /** POST /api/questions. The integer conversions run before the `try`, so
        their failure surfaces as 500; a rejected insert (`accepted` false,
        decided by the database) is caught and answered with 422. */
    method AddQuestion(body: NewQuestion, accepted: bool) returns (r: Outcome<()>)
      requires Valid()
      modifies this
      ensures Valid()
      ensures body.difficulty.None? || body.category.None? ==>
        r == Fail(InternalError) && questions == old(questions) && nextId == old(nextId)
      ensures body.difficulty.Some? && body.category.Some? && !accepted ==>
        r == Fail(Unprocessable) && questions == old(questions) && nextId == old(nextId)
      ensures body.difficulty.Some? && body.category.Some? && accepted ==>
        && r == Ok(201, ())
        && |questions| == |old(questions)| + 1
        && questions == old(questions) +
             [Question(old(nextId), body.question, body.answer, body.category.value, body.difficulty.value)]
        && nextId == old(nextId) + 1
    {
      if body.difficulty.None? || body.category.None? {
        return Fail(InternalError);
      }
      var difficulty, category := body.difficulty.value, body.category.value;
      if !accepted {
        return Fail(Unprocessable);
      }
      questions := questions + [Question(nextId, body.question, body.answer, category, difficulty)];
      nextId := nextId + 1;
      r := Ok(201, ());
    }
  }

  /** The scenario of the delete test: insert a question, delete it by its
      new id, and no row with that id is left. */
  method InsertThenDelete(store: Store, body: NewQuestion)
    requires store.Valid() && body.difficulty.Some? && body.category.Some?
    modifies store
    ensures store.Valid()
    ensures store.questions == old(store.questions)
    ensures forall q :: q in store.questions ==> q.id != old(store.nextId)
  {
    var id := store.nextId;
    var added := store.AddQuestion(body, true);
    ghost var withNew := store.questions;
    assert withNew[|withNew| - 1] in withNew && withNew[|withNew| - 1].id == id;
    var deleted := store.DeleteQuestion(id);
    assert deleted.Ok?;
    ghost var k :| 0 <= k < |withNew| && withNew[k].id == id &&
      store.questions == withNew[..k] + withNew[k + 1..];
    assert k == |withNew| - 1;
    assert withNew[..k] == old(store.questions);
  }
}
