/** The users table and the repository on it. Rows are keyed by id, ids come from a sequence, the email column is
    UNIQUE. `up` tells whether the database answers; a failed command changes no row. */
module Postgres {
  import opened Options
  import opened Domain
  import opened Regex
  import opened SearchFilter
  import opened LikeEscape
  import Paging

  datatype Table = Table(rows: map<int, User>, nextId: int)

  const EMPTY_TABLE: Table := Table(map[], 1)

  predicate EmailTaken(t: Table, email: string, except: Option<int>) {
    exists id :: id in t.rows && except != Some(id) && t.rows[id].email == email
  }

  /** What the schema guarantees: rows know their key, emails are unique. */
  ghost predicate WellFormed(t: Table) {
    && (forall id :: id in t.rows ==> t.rows[id].id == id)
    && (forall i, j :: i in t.rows && j in t.rows && t.rows[i].email == t.rows[j].email ==> i == j)
  }

  /** INSERT with the next id of the sequence, which advances even if the row is refused. */
  function Insert(t: Table, name: string, email: string, up: bool): (Table, Result<int, Error>) {
    if !up then (t, Err(Internal(Unavailable)))
    else
      var id, drawn := t.nextId, t.(nextId := t.nextId + 1);
      if id in t.rows then (drawn, Err(Internal(DuplicateKey)))
      else if EmailTaken(t, email, None) then (drawn, Err(Internal(UniqueEmail)))
      else (drawn.(rows := t.rows[id := User(id, name, email)]), Ok(id))
  }

  /** GORM's Save: all fields, inserting if no row has the id; without an id it is an INSERT. */
  function Save(t: Table, u: User, up: bool): (Table, Result<int, Error>) {
    if u.id == 0 then Insert(t, u.name, u.email, up)
    else if !up then (t, Err(Internal(Unavailable)))
    else if EmailTaken(t, u.email, Some(u.id)) then (t, Err(Internal(UniqueEmail)))
    else (t.(rows := t.rows[u.id := u]), Ok(u.id))
  }

  function Remove(t: Table, id: int, up: bool): (Table, Result<int, Error>) {
    if id <= 0 then (t, Err(Validation))
    else if !up then (t, Err(Internal(Unavailable)))
    else (t.(rows := t.rows - {id}), Ok(id))
  }

  function FindById(t: Table, id: int, up: bool): Result<User, Error> {
    if !up then Err(Internal(Unavailable))
    else if id in t.rows then Ok(t.rows[id])
    else Err(NotFound)
  }

  /** The row of least id with the email: GORM's First orders by the primary key. */
  function FindByEmail(t: Table, email: string, up: bool): Result<Option<User>, Error> {
    if !up then Err(Internal(Unavailable))
    else if EmailTaken(t, email, None) then
      LeastHolder(t, email);
      var id :| FirstHolder(t, email, id);
      Ok(Some(t.rows[id]))
    else Ok(None)
  }

  predicate FirstHolder(t: Table, email: string, id: int) {
    id in t.rows && t.rows[id].email == email
    && forall other :: other in t.rows && t.rows[other].email == email ==> id <= other
  }

  lemma LeastHolder(t: Table, email: string)
    requires EmailTaken(t, email, None)
    ensures exists id :: FirstHolder(t, email, id)
  {
    var id :| id in t.rows && t.rows[id].email == email;
    var holders := set other | other in t.rows && t.rows[other].email == email;
    var least := LeastOf(holders, id);
    assert forall other :: other in t.rows && t.rows[other].email == email ==> other in holders;
    assert FirstHolder(t, email, least);
  }

  lemma {:induction false} LeastOf(ids: set<int>, id: int) returns (least: int)
    requires id in ids
    ensures least in ids && forall other :: other in ids ==> least <= other
  {
    if other :| other in ids && other < id {
      least := LeastOf(ids - {id}, other);
      assert forall x :: x in ids ==> x == id || x in ids - {id};
    } else {
      least := id;
    }
  }

  lemma FindByIdIff(t: Table, id: int, up: bool)
    ensures FindById(t, id, up) == Err(Internal(Unavailable)) <==> !up
    ensures FindById(t, id, up) == Err(NotFound) <==> up && id !in t.rows
    ensures forall user :: FindById(t, id, up) == Ok(user) <==> up && id in t.rows && t.rows[id] == user
  {
  }

  /** No command breaks the schema. */
  lemma CommandsKeepSchema(t: Table, name: string, email: string, u: User, id: int, up: bool)
    requires WellFormed(t)
    ensures WellFormed(Insert(t, name, email, up).0)
    ensures WellFormed(Save(t, u, up).0)
    ensures WellFormed(Remove(t, id, up).0)
  {
    InsertKeepsSchema(t, name, email, up);
    if u.id == 0 {
      InsertKeepsSchema(t, u.name, u.email, up);
    }
  }

  lemma InsertKeepsSchema(t: Table, name: string, email: string, up: bool)
    requires WellFormed(t)
    ensures WellFormed(Insert(t, name, email, up).0)
  {
  }

  /******* List *******/

  /** The row is selected by the WHERE clause; an empty query has none. */
  predicate Selected(u: Unicode, row: User, query: string) {
    query == "" || ILike(u.fold, row.name, SearchPattern(query)) || ILike(u.fold, row.email, SearchPattern(query))
  }

  /** The order in which the database happens to deliver the rows: each id once. */
  ghost predicate ScanOrder(t: Table, order: seq<int>) {
    && InTable(t, order)
    && (forall id :: id in t.rows ==> id in order)
    && (forall i, j :: 0 <= i < j < |order| ==> order[i] != order[j])
  }

  predicate InTable(t: Table, ids: seq<int>) {
    forall i :: 0 <= i < |ids| ==> ids[i] in t.rows
  }

  function Select(u: Unicode, t: Table, order: seq<int>, query: string): (rows: seq<User>)
    requires InTable(t, order)
    ensures |rows| <= |order|
  {
    if order == [] then []
    else
      var n := |order| - 1;
      Select(u, t, order[..n], query) + if Selected(u, t.rows[order[n]], query) then [t.rows[order[n]]] else []
  }

  function ListRows(u: Unicode, t: Table, order: seq<int>, query: string, page: int, limit: int, up: bool)
    : Result<(seq<User>, int), Error>
    requires InTable(t, order)
  {
    match Validate(u, query)
    case Err(_) => Err(Validation)
    case Ok(q) =>
      if !up then Err(Internal(Unavailable))
      else Ok((Paging.Page(Select(u, t, order, q), page, limit), |Select(u, t, order, q)|))
  }

  /** The rows that answer pages 1..n of a search, one after the other. */
  function Answers(u: Unicode, t: Table, order: seq<int>, query: string, limit: int, n: nat): seq<User>
    requires InTable(t, order) && Validate(u, query).Ok?
  {
    if n == 0 then []
    else Answers(u, t, order, query, limit, n - 1) + ListRows(u, t, order, query, n, limit, true).value.0
  }

  lemma {:induction false} SelectExactly(u: Unicode, t: Table, order: seq<int>, query: string, row: User)
    requires InTable(t, order)
    ensures row in Select(u, t, order, query)
       <==> exists id :: id in order && t.rows[id] == row && Selected(u, row, query)
  {
    hide Selected;
    if order != [] {
      var n := |order| - 1;
      SelectExactly(u, t, order[..n], query, row);
      assert forall id :: id in order <==> id in order[..n] || id == order[n];
    }
  }

  lemma {:induction false} SelectOnce(u: Unicode, t: Table, order: seq<int>, query: string)
    requires WellFormed(t) && InTable(t, order)
    requires forall i, j :: 0 <= i < j < |order| ==> order[i] != order[j]
    ensures var rows := Select(u, t, order, query);
            forall i, j :: 0 <= i < j < |rows| ==> rows[i] != rows[j]
  {
    hide Selected;
    if order != [] {
      var n := |order| - 1;
      SelectOnce(u, t, order[..n], query);
      SelectExactly(u, t, order[..n], query, t.rows[order[n]]);
    }
  }

  /** The ids of the rows a query selects. */
  ghost function Matching(u: Unicode, t: Table, query: string): set<int> {
    set id | id in t.rows && Selected(u, t.rows[id], query)
  }

  ghost function MatchingAmong(u: Unicode, t: Table, order: seq<int>, query: string): set<int>
    requires InTable(t, order)
  {
    set id | id in order && Selected(u, t.rows[id], query)
  }

  lemma {:induction false} SelectCounts(u: Unicode, t: Table, order: seq<int>, query: string)
    requires InTable(t, order) && forall i, j :: 0 <= i < j < |order| ==> order[i] != order[j]
    ensures |Select(u, t, order, query)| == |MatchingAmong(u, t, order, query)|
  {
    hide Selected;
    if order != [] {
      var n := |order| - 1;
      SelectCounts(u, t, order[..n], query);
      OneMoreMatching(u, t, order, query);
    }
  }

  lemma OneMoreMatching(u: Unicode, t: Table, order: seq<int>, query: string)
    requires order != [] && InTable(t, order) && forall i, j :: 0 <= i < j < |order| ==> order[i] != order[j]
    ensures var n := |order| - 1;
            var before := MatchingAmong(u, t, order[..n], query);
            && order[n] !in before
            && MatchingAmong(u, t, order, query)
               == if Selected(u, t.rows[order[n]], query) then before + {order[n]} else before
  {
    hide Selected;
    var n := |order| - 1;
    assert forall id :: id in order <==> id in order[..n] || id == order[n];
  }

  lemma CountMatching(u: Unicode, t: Table, order: seq<int>, query: string)
    requires ScanOrder(t, order)
    ensures |Select(u, t, order, query)| == |Matching(u, t, query)|
  {
    hide Selected, Select;
    SelectCounts(u, t, order, query);
    assert forall id :: id in order <==> id in t.rows;
    assert MatchingAmong(u, t, order, query) == Matching(u, t, query);
  }

  lemma {:induction false} AnswersArePages(u: Unicode, t: Table, order: seq<int>, query: string, limit: int, n: nat)
    requires InTable(t, order) && Validate(u, query).Ok?
    ensures Answers(u, t, order, query, limit, n)
         == Paging.Pages(Select(u, t, order, Validate(u, query).value), limit, n)
  {
    hide Validate, Select, Paging.Page;
    if n > 0 {
      AnswersArePages(u, t, order, query, limit, n - 1);
    }
  }

  /** Who is refused, and why. */
  lemma ListRefusedIff(u: Unicode, t: Table, order: seq<int>, query: string, page: int, limit: int, up: bool)
    requires InTable(t, order)
    ensures var r := ListRows(u, t, order, query, page, limit, up);
            && (r == Err(Validation) <==> Validate(u, query).Err?)
            && (r == Err(Internal(Unavailable)) <==> Validate(u, query).Ok? && !up)
            && (r.Ok? <==> Validate(u, query).Ok? && up)
  {
    hide Validate, Select, Paging.Page;
  }

  /** Each single answer: the total is the number of matching rows, and page `page` shows the rows of the whole result
      from (page - 1) * limit on. */
  lemma ListAnswers(u: Unicode, t: Table, order: seq<int>, query: string, page: int, limit: int)
    requires ScanOrder(t, order) && Paging.Sized(|order|, limit) && page >= 1 && Validate(u, query).Ok?
    ensures var (shown, total) := ListRows(u, t, order, query, page, limit, true).value;
            var pages := Paging.ListedPages(total, limit);
            && total == |Matching(u, t, Validate(u, query).value)|
            && pages >= 0
            && var all := Answers(u, t, order, query, limit, pages);
               |all| == total && ((page - 1) * limit < Paging.TWO_63 ==> Shows(all, page, limit, shown))
  {
    hide Validate, Select, Paging.Page, Paging.Pages, Answers, Paging.ListedPages, Shows, Matching, ScanOrder;
    var q := Validate(u, query).value;
    assert InTable(t, order) by {
      ScanInTable(t, order);
    }
    var rows := Select(u, t, order, q);
    CountMatching(u, t, order, q);
    Paging.PagesPartition(rows, limit);
    AnswersArePages(u, t, order, query, limit, Paging.ListedPages(|rows|, limit));
    if (page - 1) * limit < Paging.TWO_63 {
      PageShown(rows, page, limit);
    }
  }

  lemma ScanInTable(t: Table, order: seq<int>)
    requires ScanOrder(t, order)
    ensures InTable(t, order)
  {
  }

  /** The rows of `all` from (page - 1) * limit on, at most `limit` of them. */
  ghost predicate Shows(all: seq<User>, page: int, limit: int, shown: seq<User>)
    requires page >= 1 && limit >= 1
  {
    Paging.ProductGrows(page - 1, limit);
    var from := (page - 1) * limit;
    shown == if from >= |all| then [] else if from + limit <= |all| then all[from..from + limit] else all[from..]
  }

  lemma PageShown(all: seq<User>, page: int, limit: int)
    requires Paging.Sized(|all|, limit) && page >= 1 && (page - 1) * limit < Paging.TWO_63
    ensures Shows(all, page, limit, Paging.Page(all, page, limit))
  {
    Paging.PageShows(all, page, limit);
    hide Paging.Page;
  }

  /** A search that is let through lists, over all its pages, each user whose name or email contains the query's
      trimmed text up to case, and nobody else, exactly once. */
  lemma SearchFindsExactly(u: Unicode, t: Table, order: seq<int>, query: string, row: User, limit: int)
    requires Faithful(u) && Validate(u, query).Ok? && WellFormed(t) && ScanOrder(t, order)
    requires Paging.Sized(|order|, limit)
    ensures var q := Validate(u, query).value;
            var pages := Paging.ListedPages(|Matching(u, t, q)|, limit);
            && pages >= 0
            && var listed := Answers(u, t, order, query, limit, pages);
               && (row in listed <==>
                     row.id in t.rows && t.rows[row.id] == row
                     && (Contains(u.fold, row.name, q) || Contains(u.fold, row.email, q)))
               && (forall i, j :: 0 <= i < j < |listed| ==> listed[i] != listed[j])
  {
    hide ILike, Contains, Validate, Select, Paging.Pages, Answers, Matching, Paging.ListedPages;
    var q := Validate(u, query).value;
    var rows := Select(u, t, order, q);
    CountMatching(u, t, order, q);
    Paging.PagesPartition(rows, limit);
    AnswersArePages(u, t, order, query, limit, Paging.ListedPages(|rows|, limit));
    SelectExactly(u, t, order, q, row);
    SelectOnce(u, t, order, q);
    AcceptedSearchMeansContains(u, query, row.name);
    AcceptedSearchMeansContains(u, query, row.email);
    ContainsEmpty(u.fold, row.name);
  }

  lemma ContainsEmpty(fold: char -> char, text: string)
    ensures Contains(fold, text, "")
  {
    assert OccursAt(fold, text, "", 0);
  }

  /******* The repository *******/

  class UserRepoPG {
    var table: Table

    constructor ()
      ensures table == EMPTY_TABLE
    {
      table := EMPTY_TABLE;
    }

    /** `u` is None for a nil pointer. */
    method Create(u: Option<User>, up: bool) returns (r: Result<int, Error>)
      modifies this
      ensures r.Ok? ==>
        && u.Some? && r.value !in old(table).rows && !EmailTaken(old(table), u.value.email, None)
        && table.rows == old(table).rows[r.value := User(r.value, u.value.name, u.value.email)]
      ensures r.Err? ==> table.rows == old(table).rows
      ensures r == Err(Validation) <==> u.None?
      ensures u.None? ==> table == old(table)
      ensures r == Err(Internal(UniqueEmail)) ==> u.Some? && EmailTaken(old(table), u.value.email, None)
      ensures r.Ok? <==>
        u.Some? && up && old(table).nextId !in old(table).rows && !EmailTaken(old(table), u.value.email, None)
      ensures table.nextId == old(table).nextId + if u.Some? && up then 1 else 0
      ensures r == Err(Internal(Unavailable)) <==> u.Some? && !up
      ensures WellFormed(old(table)) ==> WellFormed(table)
      ensures u.Some? ==> (table, r) == Insert(old(table), u.value.name, u.value.email, up)
    {
      if u.None? {
        return Err(Validation);
      }
      table, r := Insert(table, u.value.name, u.value.email, up).0, Insert(table, u.value.name, u.value.email, up).1;
    }

    method Update(u: Option<User>, up: bool) returns (r: Result<int, Error>)
      modifies this
      ensures r.Ok? ==>
        && u.Some? && (u.value.id != 0 ==> r.value == u.value.id)
        && !EmailTaken(old(table), u.value.email, Some(r.value))
        && table.rows == old(table).rows[r.value := u.value.(id := r.value)]
      ensures r.Err? ==> table.rows == old(table).rows
      ensures r == Err(Validation) <==> u.None?
      ensures u.None? ==> table == old(table)
      ensures r == Err(Internal(UniqueEmail)) ==>
        u.Some? && EmailTaken(old(table), u.value.email, if u.value.id == 0 then None else Some(u.value.id))
      ensures u.Some? && u.value.id != 0 ==>
        (r.Ok? <==> up && !EmailTaken(old(table), u.value.email, Some(u.value.id)))
      ensures u.Some? && u.value.id == 0 ==>
        (r.Ok? <==> up && old(table).nextId !in old(table).rows && !EmailTaken(old(table), u.value.email, None))
      ensures r == Err(Internal(Unavailable)) <==> u.Some? && !up
      ensures WellFormed(old(table)) ==> WellFormed(table)
      ensures u.Some? ==> (table, r) == Save(old(table), u.value, up)
    {
      if u.None? {
        return Err(Validation);
      }
      table, r := Save(table, u.value, up).0, Save(table, u.value, up).1;
    }

    method Delete(id: int, up: bool) returns (r: Result<int, Error>)
      modifies this
      ensures r.Ok? ==> r.value == id > 0 && id !in table.rows
      ensures r.Ok? ==> forall other :: other != id ==>
        (other in table.rows <==> other in old(table).rows)
        && (other in table.rows ==> table.rows[other] == old(table).rows[other])
      ensures r.Err? ==> table == old(table)
      ensures r == Err(Validation) <==> id <= 0
      ensures r.Ok? <==> id > 0 && up
      ensures r == Err(Internal(Unavailable)) <==> id > 0 && !up
      ensures WellFormed(old(table)) ==> WellFormed(table)
      ensures (table, r) == Remove(old(table), id, up)
    {
      if id <= 0 {
        return Err(Validation);
      }
      table, r := Remove(table, id, up).0, Remove(table, id, up).1;
    }

    method GetByID(id: int, up: bool) returns (r: Result<User, Error>)
      ensures r == FindById(table, id, up)
    {
      r := FindById(table, id, up);
    }

    method GetByEmail(email: string, up: bool) returns (r: Result<Option<User>, Error>)
      ensures r == FindByEmail(table, email, up)
    {
      r := FindByEmail(table, email, up);
    }

    method List(u: Unicode, order: seq<int>, query: string, page: int, limit: int, up: bool)
      returns (r: Result<(seq<User>, int), Error>)
      requires ScanOrder(table, order)
      ensures r == ListRows(u, table, order, query, page, limit, up)
    {
      hide Validate, Selected, Paging.Page;
      var validated := ValidateSearchQuery(u, query);
      if validated.Err? {
        return Err(Validation);
      }
      if !up {
        return Err(Internal(Unavailable));
      }
      var selected: seq<User> := [];
      for i := 0 to |order|
        invariant selected == Select(u, table, order[..i], validated.value)
      {
        assert order[..i + 1][..i] == order[..i];
        if Selected(u, table.rows[order[i]], validated.value) {
          selected := selected + [table.rows[order[i]]];
        }
      }
      assert order[..|order|] == order;
      var total := |selected|;
      var models := Paging.Page(selected, page, limit);
      var users: seq<User> := [];
      for i := 0 to |models|
        invariant users == models[..i]
      {
        users := users + [User(models[i].id, models[i].name, models[i].email)];
      }
      assert models[..|models|] == models;
      return Ok((users, total));
    }
  }
}
