# Trivia API core in Dafny

The trivia service is a small Flask application over two tables: questions
`{id, question, answer, category, difficulty}` and categories `{id, type}`. Its
route handlers in `backend/flaskr/__init__.py` do some data shaping:

- it slices the listing into pages of 10;
- it builds the category id -> type map;
- it deletes or inserts one question;
- it searches question text without regard to case;
- it filters questions by category;
- it picks the next unseen question of a quiz round.

This project models that logic over an explicit store. The store is the
sequence of question rows and the sequence of category rows, in store order.
Each handler yields an `Outcome`: either a success with its status code (200,
or 201 for an insert) and its payload, or one of the four errors
(400/404/422/500) whose fixed bodies are defined in `Records.ErrorBody`.

Layout:

- `records.dfy` (`Records`): rows, outcomes, error bodies, unique ids.
- `sequences.dfy` (`Sequences`): store-order filtering, ASCII case folding, substring search.
- `pagination.dfy` (`Pagination`): the page number, Python slicing with negative bounds, pages.
- `categories.dfy` (`Categories`): the category map with its loop, GET /api/categories, lookup by id.
- `listing.dfy` (`Listing`): GET /api/questions.
- `search.dfy` (`Search`): POST /api/questions/search.
- `bycategory.dfy` (`ByCategory`): GET /api/categories/<id>/questions.
- `quiz.dfy` (`Quiz`): POST /api/quizzes, with its loop and a reference definition of the pick.
- `store.dfy` (`QuestionStore`): the question table as a class with DELETE and POST /api/questions.

Modelling choices:

- `format()` is the identity on rows. The category field `type` is called `kind`, because `type` is a Dafny keyword.
- Handlers that only read the store are functions, or methods where the source loops. Handlers that change the store are methods of `QuestionStore.Store`, which holds the question table (the category table is read-only and is passed to the reading handlers as a value).
- Path ids (`<int:id>`) are unsigned integers, so they are `nat` in the model.
- Python's `list[start:end]` is written out (`Pagination.PySlice`). A page number below 1 therefore behaves as in the source: page 0 is empty, and page -1 counts from the end of the list.
- Inputs the handlers read from the request are parameters; `None` stands for an absent or unconvertible value.
- Whether the database accepts an insert is the parameter `accepted` of `AddQuestion`. The id it assigns is the store's `nextId`.
- In POST /api/questions, the `try` at backend/flaskr/__init__.py:92 covers only the construction and the insert. The `int(...)` conversions at :89-90 run before it, so a missing or non-numeric `difficulty` or `category` is an uncaught error, and the model answers 500.
- In POST /api/quizzes, `previous_questions` is used only by the `in` test at :151, so it raises only inside the loop. A missing `previous_questions` is 422 when the category has questions, and 200 with a null question when it has none.
- A non-empty page when no category row exists: `categories[0]` raises, and the model answers 500.
- Quiz selection is deterministic: the first unseen question in store order. Every query is taken to return its rows in that one store order.

## Model

| member | source | states |
|---|---|---|
| `Records.ErrorBody` | backend/flaskr/__init__.py:167-197 | every error body reports `success` false and the status code of its handler |
| `Pagination.PySlice` | backend/flaskr/__init__.py:18 | for all bounds, the slice has length max(0, hi - lo) of the normalised bounds, and its element k is element lo + k of the list |
| `Pagination.Paginate` | backend/flaskr/__init__.py:12-19 | a page never holds more than 10 questions; for page >= 1 it is exactly the store slice [(page-1)*10, min(page*10, n)), of length min(10, max(0, n-(page-1)*10)) |
| `Pagination.PageElements` | backend/flaskr/__init__.py:14-18 | for page >= 1, element k of the page is element (page-1)*10+k of the listing, in store order |
| `Pagination.EmptyPageBeyondEnd` | backend/flaskr/__init__.py:14-18 | for page >= 1, the page is empty exactly when n <= (page-1)*10 |
| `Pagination.PageZeroIsEmpty` | backend/flaskr/__init__.py:14-18 | page 0 slices [-10:0] and is always empty |
| `Pagination.NegativePageCountsFromEnd` | backend/flaskr/__init__.py:14-18 | a negative page returns the slice ending page*10 from the end of the listing, and is non-empty once n + page*10 > 0 |
| `Sequences.Filter` | backend/flaskr/__init__.py:120 | a store query with a condition keeps exactly the rows that satisfy it, and no more rows than the store holds |
| `Sequences.FilterMultiset` | backend/flaskr/__init__.py:120 | a store query with a condition returns each row that satisfies it as many times as the store holds it, and no other row |
| `Sequences.FilterSnoc` | backend/flaskr/__init__.py:150-152 | filtering a list with one more row at its end appends that row exactly when it passes, as the appending loop does |
| `Sequences.Occurs` | backend/flaskr/__init__.py:107-108 | the left-to-right scan finds the pattern exactly when it occurs at some position of the text |
| `Categories.CategoryMap` | backend/flaskr/__init__.py:41-44 | the map's keys are exactly the category ids |
| `Categories.CategoryMapLastWins` | backend/flaskr/__init__.py:42-44 | a key maps to the type of the last record with that id, so a later duplicate overwrites an earlier one |
| `Categories.CategoryMapValues` | backend/flaskr/__init__.py:42-44 | every value in the map is the type of some record with that id |
| `Categories.FormatCategories` | backend/flaskr/__init__.py:53-56 | the loop builds exactly the map `CategoryMap`, whose keys are the category ids |
| `Categories.GetCategories` | backend/flaskr/__init__.py:38-45 | the category listing always succeeds with code 200 and the full id -> type map |
| `Categories.FindCategory` | backend/flaskr/__init__.py:121 | the lookup by id returns a record of the table with that id, and nothing exactly when no record has it |
| `Listing.GetQuestions` | backend/flaskr/__init__.py:47-68 | 404 exactly when the requested page is empty, even if the store is not, and for page >= 1 exactly when n <= (page-1)*10; 500 exactly when the page is non-empty but there are no categories; otherwise 200 with the page (1 to 10 questions), the total count of the whole store, the category map and the first category |
| `Search.Matches` | backend/flaskr/__init__.py:107-108 | a text matches a term exactly when some window of the text equals the term up to ASCII letter case |
| `Search.FoldedOccurrence` | backend/flaskr/__init__.py:107-108 | the folded term occurs in the folded text at a position exactly when the text's window there matches the term up to case |
| `Search.SearchHits` | backend/flaskr/__init__.py:107-108 | the hits are exactly the store questions whose text contains the term, ignoring ASCII case, each as often as the store holds it |
| `Search.SearchQuestions` | backend/flaskr/__init__.py:103-116 | 422 exactly when the term is absent or empty; otherwise 200, every returned question matches, every matching question is returned, each exactly as often as the store holds it, and the total is the number returned, hence the number of matching store rows |
| `Search.SearchIgnoresCase` | backend/flaskr/__init__.py:107-108 | two terms that differ only in letter case give the same answer |
| `Search.VerbatimOccurrenceMatches` | backend/flaskr/__init__.py:107-108 | a question whose text contains the term verbatim matches it |
| `ByCategory.InCategory` | backend/flaskr/__init__.py:120 | the category query returns exactly the store questions of that category, each as often as the store holds it |
| `ByCategory.QuestionsByCategory` | backend/flaskr/__init__.py:118-136 | 404 exactly when no question has the category and no category record has the id; otherwise 200 with exactly the questions of the category, each as often as the store holds it, their count, and the category record, present exactly when one exists |
| `Quiz.QuizPick` | backend/flaskr/__init__.py:145-157 | the pick is a store question of the category whose id is not in the previous questions, with no such question before it in store order; there is no pick exactly when every question of the category was seen |
| `Quiz.Unseen` | backend/flaskr/__init__.py:148-152 | the loop keeps exactly the questions whose id is not in the previous questions |
| `Quiz.UnseenStep` | backend/flaskr/__init__.py:150-152 | one iteration appends the next question exactly when its id was not seen |
| `Quiz.FirstSurvivorIsPick` | backend/flaskr/__init__.py:145-157 | taking the first survivor of the category query and the unseen filter gives the reference pick `QuizPick` |
| `Quiz.FirstUnseen` | backend/flaskr/__init__.py:148-157 | the loop answers the first unseen question of the category's questions, or null when there is none |
| `Quiz.GetQuizQuestion` | backend/flaskr/__init__.py:138-165 | a missing category is 422; with previous questions the answer is 200 with `QuizPick`; without them it is 422 when the category has questions and 200 with null when it has none |
| `QuestionStore.IndexOfId` | backend/flaskr/__init__.py:72 | the lookup finds the first row with the id, and nothing exactly when no row has it |
| `QuestionStore.RemoveAtRemovesOnlyThatId` | backend/flaskr/__init__.py:72-75 | removing the row found for an id, with unique ids, removes exactly that id: every other row stays, ids stay unique, the count drops by one |
| `QuestionStore.Store.DeleteQuestion` | backend/flaskr/__init__.py:70-82 | 404 with the store unchanged exactly when no row has the id; otherwise 200, the store minus that one row with the others in the same order, and no row with that id left |
| `QuestionStore.Store.AddQuestion` | backend/flaskr/__init__.py:84-101 | an unconvertible difficulty or category answers 500 and a rejected insert 422, both with the store unchanged; otherwise 201 and the store grows by exactly the new row, appended with a fresh id |
| `QuestionStore.InsertThenDelete` | backend/test_flaskr.py:69-83 | inserting a question and deleting it by its new id leaves the store as before, with no row holding that id |

## Left out

- Routing, request parsing, `jsonify`, and the CORS set-up and `after_request` headers (backend/flaskr/__init__.py:24-36): these belong to the web framework.
- The object mapper and `models.py`, which is not part of this model. Queries, `insert()` and `delete()` act on the store values; `format()` is the identity. Round-tripping a formatted row is therefore not modelled.
- `Search.Matches`: reads `ILIKE '%term%'` as plain containment after ASCII lower-casing. Database collation, non-ASCII case folding, `%` or `_` inside the term acting as wildcards, and `\` acting as PostgreSQL's default LIKE escape character are not modelled. This is where the model and the code can diverge.
- `Quiz.GetQuizQuestion` and `Quiz.QuizPick`: the model takes every query to return its rows in the one store order, both the listing query (backend/flaskr/__init__.py:49) and the category query of the quiz (:145-146). SQL without ORDER BY does not guarantee any order, so the pick equals the source's `filtered_questions[0]` (:155) only under that assumption.
- `Search.SearchQuestions` and `ByCategory.QuestionsByCategory`: they state which rows are returned and how many times each, not the order of the rows. The queries have no ORDER BY, so their order is the database's.
- `Search.SearchQuestions` does not model a request with no JSON body: `get_json()` then yields no mapping, and `.get` raises outside any `try`. A `searchTerm` that is not a string is not modelled either; it does not raise: a truthy value such as `5` is searched as its text, and a falsy one such as `0` or `[]` is answered 422 by the test at backend/flaskr/__init__.py:106. `current_category` is always null and has no field.
- `QuestionStore.Store.AddQuestion`: a missing or malformed JSON body is not modelled; the failure at :86-87 (`get_json()` raising 400 on malformed JSON, or `body.get` on no body) happens outside the `try`, before any insert. `question` and `answer` are always strings. Whether the table stores or rejects a missing one is decided in `models.py`; the model covers it only through `accepted`. An id used up by a failed insert is not modelled.
- `QuestionStore.Store.DeleteQuestion` does not model a database failure inside `question.delete()`.
- `Quiz.GetQuizQuestion` collapses three cases into `categoryId` None, all answered with 422: no JSON body, no `quiz_category`, and a `quiz_category` without `id`. `previous_questions` values that are not lists of integers are not modelled. A `quiz_category` whose `id` is JSON null cannot be represented either: it does not raise, because the filter becomes `category IS NULL`.
- `ByCategory.QuestionsByCategory` and `QuestionStore.Store.DeleteQuestion`: a negative path id never reaches the handler, because routing answers 404 for it. The model types these ids as `nat` and does not model that routing 404, though POST /api/questions does accept a negative `category`.
- Concurrency and transactions: each handler is a single step on the store.
- The `random` import (backend/flaskr/__init__.py:5) is unused; the pick is deterministic.
- No handler calls `abort(400)`. A malformed JSON body makes `get_json()` raise 400 in POST /api/questions (backend/flaskr/__init__.py:86) and POST /api/questions/search (:105), outside any `try`; the model does not represent request parsing, so it never produces `BadRequest`. At :141 the same failure is caught and answered with 422, which `Quiz.GetQuizQuestion` covers as a missing category.
- The test set-up and database connection (backend/test_flaskr.py:13-33).
