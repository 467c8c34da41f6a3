/** POST /api/questions/search: case-insensitive substring search over the
    question text, without pagination. */
module Search {
  import opened Records
  import opened Sequences

  /** The window of `text` at position `i` equals `term` up to ASCII case. */
  predicate MatchesAt(text: string, term: string, i: int)
  {
    0 <= i <= |text| - |term| && FoldCase(text[i..i + |term|]) == FoldCase(term)
  }

  /** `text ILIKE '%term%'`, read as ASCII case-folded substring containment:
      some window of the text equals the term when letter case is ignored. */
  function Matches(text: string, term: string): (b: bool)
    ensures b <==> exists i :: MatchesAt(text, term, i)
  {
    FoldedOccurrence(text, term);
    Occurs(FoldCase(term), FoldCase(text))
  }

  /** The folded term occurs in the folded text exactly where a window of
      the text matches the term. */
  lemma FoldedOccurrence(text: string, term: string)
    ensures forall i :: OccursAt(FoldCase(term), FoldCase(text), i) <==> MatchesAt(text, term, i)
  {
    forall i ensures OccursAt(FoldCase(term), FoldCase(text), i) <==> MatchesAt(text, term, i) {
      if 0 <= i <= |text| - |term| {
        assert FoldCase(text)[i..i + |term|] == FoldCase(text[i..i + |term|]);
      }
    }
  }

  /** The questions whose text matches `term`, in store order. */
  function SearchHits(qs: seq<Question>, term: string): (r: seq<Question>)
    ensures forall q :: q in r <==> q in qs && Matches(q.question, term)
    ensures forall q :: multiset(r)[q] == if Matches(q.question, term) then multiset(qs)[q] else 0
  {
    FilterMultiset(qs, (q: Question) => Matches(q.question, term));
    Filter(qs, (q: Question) => Matches(q.question, term))
  }

  datatype SearchResult = SearchResult(questions: seq<Question>, totalQuestions: int)

  /** The handler: an absent or empty `searchTerm` is 422; otherwise every
      matching question is returned, as often as the store holds it, with
      their count. `current_category` is always null and is not represented. */
  function SearchQuestions(qs: seq<Question>, searchTerm: Option<string>): (r: Outcome<SearchResult>)
    ensures r.Fail? <==> searchTerm.None? || searchTerm.value == ""
    ensures r.Fail? ==> r.error == Unprocessable
    ensures r.Ok? ==>
      && r.code == 200
      && r.body.totalQuestions == |r.body.questions|
      && |r.body.questions| <= |qs|
      && (forall q :: q in r.body.questions ==> q in qs && Matches(q.question, searchTerm.value))
      && (forall q :: q in qs && Matches(q.question, searchTerm.value) ==> q in r.body.questions)
      && (forall q :: multiset(r.body.questions)[q] ==
            if Matches(q.question, searchTerm.value) then multiset(qs)[q] else 0)
  {
    if searchTerm.None? || searchTerm.value == "" then Fail(Unprocessable)
    else
      var hits := SearchHits(qs, searchTerm.value);
      Ok(200, SearchResult(hits, |hits|))
  }

  /** The letter case of the search term does not change the result. */
  lemma SearchIgnoresCase(qs: seq<Question>, t1: string, t2: string)
    requires FoldCase(t1) == FoldCase(t2)
    ensures SearchQuestions(qs, Some(t1)) == SearchQuestions(qs, Some(t2))
  {
    FilterCongruent(qs, (q: Question) => Matches(q.question, t1), (q: Question) => Matches(q.question, t2));
  }

  /** A question whose text contains the term verbatim is among the hits. */
  lemma VerbatimOccurrenceMatches(text: string, term: string, i: int)
    requires OccursAt(term, text, i)
    ensures Matches(text, term)
  {
    assert FoldCase(text)[i..i + |term|] == FoldCase(term);
    assert OccursAt(FoldCase(term), FoldCase(text), i);
  }
}
