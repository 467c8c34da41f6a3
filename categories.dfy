/** The category id -> type map and the category lookup by id. */
module Categories {
  import opened Records

  /** The ids of the category records. */
  function Ids(cs: seq<Category>): set<int>
  {
    set c | c in cs :: c.id
  }

  /** The map that results from assigning `m[c.id] := c.kind` for each record
      in store order, so that a later record with the same id wins. */
  function CategoryMap(cs: seq<Category>): (m: map<int, string>)
    ensures m.Keys == Ids(cs)
  {
    if cs == [] then map[]
    else
      var init, last := cs[..|cs| - 1], cs[|cs| - 1];
      assert cs == init + [last];
      CategoryMap(init)[last.id := last.kind]
  }

  /** A key of the map holds the type of the last record with that id. */
  lemma {:induction false} CategoryMapLastWins(cs: seq<Category>, i: int)
    requires 0 <= i < |cs|
    requires forall j :: i < j < |cs| ==> cs[j].id != cs[i].id
    ensures cs[i].id in CategoryMap(cs)
    ensures CategoryMap(cs)[cs[i].id] == cs[i].kind
  {
    if i < |cs| - 1 {
      var init := cs[..|cs| - 1];
      CategoryMapLastWins(init, i);
    }
  }

  /** Every value of the map is the type of some record with that key. */
  lemma {:induction false} CategoryMapValues(cs: seq<Category>, k: int)
    requires k in CategoryMap(cs)
    ensures exists i :: 0 <= i < |cs| && cs[i].id == k && cs[i].kind == CategoryMap(cs)[k]
  {
    var last := cs[|cs| - 1];
    if last.id != k {
      CategoryMapValues(cs[..|cs| - 1], k);
      var i :| 0 <= i < |cs| - 1 && cs[..|cs| - 1][i].id == k &&
               cs[..|cs| - 1][i].kind == CategoryMap(cs[..|cs| - 1])[k];
      assert cs[i].id == k;
    } else {
      assert cs[|cs| - 1].id == k;
    }
  }

  /** The loop that assigns each record's type to its id, in store order,
      shared by the category listing and the question listing. */
  method FormatCategories(cs: seq<Category>) returns (m: map<int, string>)
    ensures m == CategoryMap(cs)
    ensures m.Keys == Ids(cs)
  {
    m := map[];
    var i := 0;
    while i < |cs|
      invariant 0 <= i <= |cs|
      invariant m == CategoryMap(cs[..i])
    {
      assert cs[..i + 1][..i] == cs[..i];
      m := m[cs[i].id := cs[i].kind];
      i := i + 1;
    }
    assert cs[..|cs|] == cs;
  }

  /** GET /api/categories: always succeeds with the whole id -> type map. */
  method GetCategories(cs: seq<Category>) returns (r: Outcome<map<int, string>>)
    ensures r.Ok? && r.code == 200
    ensures r.body.Keys == Ids(cs)
    ensures r.body == CategoryMap(cs)
  {
    var m := FormatCategories(cs);
    r := Ok(200, m);
  }

  /** The lookup by primary key: the category record with that id, if any. */
  function FindCategory(cs: seq<Category>, id: int): (r: Option<Category>)
    ensures r.Some? ==> r.value in cs && r.value.id == id
    ensures r.None? <==> id !in Ids(cs)
  {
    if cs == [] then None
    else if cs[0].id == id then Some(cs[0])
    else FindCategory(cs[1..], id)
  }
}
