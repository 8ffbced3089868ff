/** The use case: requests are validated, the email is looked up, and only then is the row written. The UNIQUE
    constraint is the last line; these theorems say when it is needed. What counts as an email address is a
    parameter (the empty string does not). */
module UserUsecase {
  import opened Options
  import opened Domain
  import opened Postgres
  import opened CachedRepository
  import opened SearchFilter
  import opened Regex
  import Paging
  import opened Integers

  type EmailRule = email: string -> bool | !email("") witness (s: string) => false

  datatype Request =
    | CreateUser(name: string, email: string)
    | UpdateUser(id: int, name: string, email: string)

  /** The validator's tags: required, min=3, max=100, email, omitempty. */
  predicate Valid(isEmail: EmailRule, q: Request) {
    match q
    case CreateUser(name, email) => 3 <= |name| <= 100 && isEmail(email)
    case UpdateUser(id, name, email) =>
      id != 0 && (name == "" || 3 <= |name| <= 100) && (email == "" || isEmail(email))
  }

  /** The first half of a call: an error that ends it, or None to go on and write. */
  function Check(isEmail: EmailRule, t: Table, q: Request, up: bool): Option<Error>
  {
    if !Valid(isEmail, q) then Some(Validation)
    else if q.UpdateUser? && q.email == "" then None
    else
      match FindByEmail(t, q.email, up)
      case Err(_) => Some(Internal(Unavailable))
      case Ok(None) => None
      case Ok(Some(user)) => if q.UpdateUser? && user.id == q.id then None else Some(AlreadyExists)
  }

  /** The second half. */
  function Write(t: Table, q: Request, up: bool): (Table, Result<int, Error>) {
    match q
    case CreateUser(name, email) => Insert(t, name, email, up)
    case UpdateUser(id, name, email) => Save(t, User(id, name, email), up)
  }

  function Atomically(isEmail: EmailRule, t: Table, q: Request, lookup: bool, write: bool)
    : (Table, Result<int, Error>)
  {
    var stop := Check(isEmail, t, q, lookup);
    if stop.Some? then (t, Err(stop.value)) else Write(t, q, write)
  }

  lemma WriteKeepsSchema(t: Table, q: Request, up: bool)
    requires WellFormed(t)
    ensures WellFormed(Write(t, q, up).0)
  {
    match q
    case CreateUser(name, email) => InsertKeepsSchema(t, name, email, up);
    case UpdateUser(id, name, email) => CommandsKeepSchema(t, "", "", User(id, name, email), 0, up);
  }

  /** Somebody else than the request's own user has the email. */
  predicate HeldByAnother(t: Table, q: Request) {
    EmailTaken(t, q.email, if q.UpdateUser? then Some(q.id) else None)
  }

  lemma LookupFinds(t: Table, email: string)
    requires WellFormed(t)
    ensures match FindByEmail(t, email, true)
            case Ok(Some(user)) => user.id in t.rows && t.rows[user.id] == user && user.email == email
            case Ok(None) => !EmailTaken(t, email, None)
            case Err(_) => false
  {
  }

  /** Checked and written in one go, a call is refused by the UNIQUE constraint exactly when it updates to the empty
      email while another row already holds it: the only email nobody looks up. */
  lemma ConstraintNeededIff(isEmail: EmailRule, t: Table, q: Request, lookup: bool, write: bool)
    requires WellFormed(t)
    ensures Atomically(isEmail, t, q, lookup, write).1 == Err(Internal(UniqueEmail))
       <==> Valid(isEmail, q) && q.UpdateUser? && q.email == "" && write && HeldByAnother(t, q)
  {
    LookupFinds(t, q.email);
  }

  /** Otherwise a duplicate email is always reported as such. */
  lemma DuplicateReportedIff(isEmail: EmailRule, t: Table, q: Request, lookup: bool, write: bool)
    requires WellFormed(t)
    ensures Atomically(isEmail, t, q, lookup, write).1 == Err(AlreadyExists)
       <==> Valid(isEmail, q) && q.email != "" && lookup && HeldByAnother(t, q)
  {
    LookupFinds(t, q.email);
  }

  /** What a write leaves behind: exactly the name and email it was called with. */
  lemma WriteStores(t: Table, q: Request, up: bool)
    requires q.UpdateUser? ==> q.id != 0
    ensures var (t', r) := Write(t, q, up);
            && (r.Err? ==> t'.rows == t.rows)
            && (r.Ok? ==> t'.rows == t.rows[r.value := User(r.value, q.name, q.email)])
            && (r.Ok? ==> if q.CreateUser? then r.value !in t.rows else r.value == q.id)
  {
  }

  /** When a call succeeds, checked and written in one go. */
  lemma SucceedsIff(isEmail: EmailRule, t: Table, q: Request, lookup: bool, write: bool)
    requires WellFormed(t)
    ensures Atomically(isEmail, t, q, lookup, write).1.Ok?
       <==> && Valid(isEmail, q) && write && !HeldByAnother(t, q)
            && (lookup || q.email == "")
            && (q.CreateUser? ==> t.nextId !in t.rows)
  {
    LookupFinds(t, q.email);
  }

  /** A database that does not answer is reported as such: at the lookup, if there is one, or at the write. */
  lemma UnavailableIff(isEmail: EmailRule, t: Table, q: Request, lookup: bool, write: bool)
    requires WellFormed(t) && (q.UpdateUser? ==> q.id != 0)
    ensures Atomically(isEmail, t, q, lookup, write).1 == Err(Internal(Unavailable))
       <==> Valid(isEmail, q) && if q.email != "" && !lookup then true
                                 else (q.email == "" || !HeldByAnother(t, q)) && !write
  {
    LookupFinds(t, q.email);
  }

  /** The rules a request has to meet are the validator's tags, and breaking one is the only validation error. */
  lemma InvalidIff(isEmail: EmailRule, t: Table, q: Request, lookup: bool, write: bool)
    ensures Atomically(isEmail, t, q, lookup, write).1 == Err(Validation) <==> !Valid(isEmail, q)
  {
  }

  /******* Interleaved calls *******/

  /** `seen` is the table at the time of the check; it is history only. */
  datatype Call =
    | Begun(q: Request)
    | Checked(q: Request, seen: Table)
    | Finished(q: Request, result: Result<int, Error>)

  datatype State = State(table: Table, calls: seq<Call>)

  datatype Event =
    | Begin(q: Request)
    | LookUp(call: nat, up: bool)
    | Commit(call: nat, up: bool)
    | Delete(id: int, up: bool)

  ghost predicate Enabled(s: State, e: Event) {
    match e
    case LookUp(c, _) => c < |s.calls| && s.calls[c].Begun?
    case Commit(c, _) => c < |s.calls| && s.calls[c].Checked?
    case _ => true
  }

  ghost function Next(isEmail: EmailRule, s: State, e: Event): State
    requires Enabled(s, e)
  {
    match e
    case Begin(q) => s.(calls := s.calls + [Begun(q)])
    case LookUp(c, up) =>
      var q := s.calls[c].q;
      var stop := Check(isEmail, s.table, q, up);
      s.(calls := s.calls[c := if stop.Some? then Finished(q, Err(stop.value)) else Checked(q, s.table)])
    case Commit(c, up) =>
      var q := s.calls[c].q;
      var (table, r) := Write(s.table, q, up);
      State(table, s.calls[c := Finished(q, r)])
    case Delete(id, up) => s.(table := Remove(s.table, id, up).0)
  }

  ghost predicate ValidRun(isEmail: EmailRule, s: State, es: seq<Event>)
    decreases |es|
  {
    es == [] || (Enabled(s, es[0]) && ValidRun(isEmail, Next(isEmail, s, es[0]), es[1..]))
  }

  ghost function Exec(isEmail: EmailRule, s: State, es: seq<Event>): State
    requires ValidRun(isEmail, s, es)
    decreases |es|
  {
    if es == [] then s else Exec(isEmail, Next(isEmail, s, es[0]), es[1..])
  }

  const START: State := State(EMPTY_TABLE, [])

  /** The schema holds, and every checked call was right when it looked. */
  ghost predicate Sound(isEmail: EmailRule, s: State) {
    && WellFormed(s.table)
    && forall c :: 0 <= c < |s.calls| && s.calls[c].Checked? ==>
         WellFormed(s.calls[c].seen) && Check(isEmail, s.calls[c].seen, s.calls[c].q, true).None?
  }

  lemma CheckWasUp(isEmail: EmailRule, t: Table, q: Request, up: bool)
    requires Check(isEmail, t, q, up).None?
    ensures Check(isEmail, t, q, true).None?
  {
  }

  lemma StepKeepsSound(isEmail: EmailRule, s: State, e: Event)
    requires Sound(isEmail, s) && Enabled(s, e)
    ensures Sound(isEmail, Next(isEmail, s, e))
  {
    hide Check, WellFormed, Write;
    match e
    case LookUp(c, up) =>
      if Check(isEmail, s.table, s.calls[c].q, up).None? {
        CheckWasUp(isEmail, s.table, s.calls[c].q, up);
      }
    case Commit(c, up) => WriteKeepsSchema(s.table, s.calls[c].q, up);
    case Delete(id, up) => CommandsKeepSchema(s.table, "", "", User(0, "", ""), id, up);
    case _ =>
  }

  lemma {:induction false} RunKeepsSound(isEmail: EmailRule, s: State, es: seq<Event>)
    requires Sound(isEmail, s) && ValidRun(isEmail, s, es)
    ensures Sound(isEmail, Exec(isEmail, s, es))
    decreases |es|
  {
    hide Sound;
    if es != [] {
      StepKeepsSound(isEmail, s, es[0]);
      RunKeepsSound(isEmail, Next(isEmail, s, es[0]), es[1..]);
    }
  }

  /** Whatever the interleaving, emails stay unique. */
  lemma EmailsStayUnique(isEmail: EmailRule, es: seq<Event>, i: int, j: int)
    requires ValidRun(isEmail, START, es)
    requires var t := Exec(isEmail, START, es).table;
             i in t.rows && j in t.rows && t.rows[i].email == t.rows[j].email
    ensures i == j
  {
    RunKeepsSound(isEmail, START, es);
  }

  /** When the constraint refuses the write of a checked call, either the call updates to the empty email, or the
      email was taken by somebody else between the call's check and its write. */
  lemma RefusalMeansRace(isEmail: EmailRule, es: seq<Event>, c: nat, up: bool)
    requires ValidRun(isEmail, START, es)
    requires var s := Exec(isEmail, START, es);
             c < |s.calls| && s.calls[c].Checked? && Write(s.table, s.calls[c].q, up).1 == Err(Internal(UniqueEmail))
    ensures var s := Exec(isEmail, START, es);
            var q, seen := s.calls[c].q, s.calls[c].seen;
            && HeldByAnother(s.table, q)
            && ((q.UpdateUser? && q.email == "") || !HeldByAnother(seen, q))
  {
    RunKeepsSound(isEmail, START, es);
    var s := Exec(isEmail, START, es);
    hide Exec;
    var q, seen := s.calls[c].q, s.calls[c].seen;
    LookupFinds(seen, q.email);
  }

  /** Such a race exists: two creations of one email both pass the check, and the second is refused by the constraint
      with an internal error instead of "already exists". */
  lemma TwoCreationsMayRace(isEmail: EmailRule, q: Request) returns (es: seq<Event>)
    requires q.CreateUser? && Valid(isEmail, q)
    ensures ValidRun(isEmail, START, es)
    ensures Exec(isEmail, START, es).calls == [Finished(q, Ok(1)), Finished(q, Err(Internal(UniqueEmail)))]
  {
    var s1 := State(EMPTY_TABLE, [Begun(q)]);
    var s2 := State(EMPTY_TABLE, [Begun(q), Begun(q)]);
    var s3 := State(EMPTY_TABLE, [Checked(q, EMPTY_TABLE), Begun(q)]);
    var s4 := State(EMPTY_TABLE, [Checked(q, EMPTY_TABLE), Checked(q, EMPTY_TABLE)]);
    var one := Table(map[1 := User(1, q.name, q.email)], 2);
    var s5 := State(one, [Finished(q, Ok(1)), Checked(q, EMPTY_TABLE)]);
    var s6 := State(one.(nextId := 3), [Finished(q, Ok(1)), Finished(q, Err(Internal(UniqueEmail)))]);
    assert Check(isEmail, EMPTY_TABLE, q, true).None?;
    assert one.rows[1].email == q.email;
    assert Write(one, q, true) == (one.(nextId := 3), Err(Internal(UniqueEmail)));
    assert Next(isEmail, START, Begin(q)) == s1;
    assert Next(isEmail, s1, Begin(q)) == s2;
    assert Enabled(s2, LookUp(0, true)) && Next(isEmail, s2, LookUp(0, true)) == s3;
    assert Enabled(s3, LookUp(1, true)) && Next(isEmail, s3, LookUp(1, true)) == s4;
    assert Next(isEmail, s4, Commit(0, true)) == s5;
    assert Next(isEmail, s5, Commit(1, true)) == s6;
    es := [];
    assert ValidRun(isEmail, s6, es) && Exec(isEmail, s6, es) == s6;
    hide Next, ValidRun, Exec;
    Prepend(isEmail, s5, Commit(1, true), es);     es := [Commit(1, true)] + es;
    Prepend(isEmail, s4, Commit(0, true), es);     es := [Commit(0, true)] + es;
    Prepend(isEmail, s3, LookUp(1, true), es);     es := [LookUp(1, true)] + es;
    Prepend(isEmail, s2, LookUp(0, true), es);     es := [LookUp(0, true)] + es;
    Prepend(isEmail, s1, Begin(q), es);            es := [Begin(q)] + es;
    Prepend(isEmail, START, Begin(q), es);         es := [Begin(q)] + es;
  }

  lemma Prepend(isEmail: EmailRule, s: State, e: Event, es: seq<Event>)
    requires Enabled(s, e) && ValidRun(isEmail, Next(isEmail, s, e), es)
    ensures ValidRun(isEmail, s, [e] + es)
    ensures Exec(isEmail, s, [e] + es) == Exec(isEmail, Next(isEmail, s, e), es)
  {
    assert ([e] + es)[1..] == es;
  }

  /******* The class *******/

  datatype Pagination = Pagination(total: int, page: int, limit: int, totalPages: int)

  /** The answer of ListUsers. */
  function ListPage(u: Unicode, t: Table, order: seq<int>, query: string, page: int, limit: int, up: bool)
    : Result<(seq<User>, Pagination), Error>
    requires InTable(t, order)
  {
    var p, l := Paging.ClampPage(page), Paging.ClampLimit(limit);
    match ListRows(u, t, order, query, p, l, up)
    case Err(e) => Err(e)
    case Ok((rows, total)) => Ok((rows, Pagination(total, p, l, Paging.ListedPages(total, l))))
  }

  /** The users shown to a client who asks for pages 1..n. */
  function ShownTo(u: Unicode, t: Table, order: seq<int>, query: string, limit: int, n: nat): seq<User>
    requires InTable(t, order) && Validate(u, query).Ok?
  {
    if n == 0 then []
    else ShownTo(u, t, order, query, limit, n - 1) + ListPage(u, t, order, query, n, limit, true).value.0
  }

  lemma {:induction false} ShownAreAnswers(u: Unicode, t: Table, order: seq<int>, query: string, limit: int, n: nat)
    requires InTable(t, order) && Validate(u, query).Ok?
    ensures ShownTo(u, t, order, query, limit, n) == Answers(u, t, order, query, Paging.ClampLimit(limit), n)
  {
    hide Validate, ListRows, Paging.ClampLimit;
    if n > 0 {
      ListRefusedIff(u, t, order, query, n, Paging.ClampLimit(limit), true);
      ShownAreAnswers(u, t, order, query, limit, n - 1);
    }
  }

  /** A client who asks for page 1 and then for as many pages as it names, whatever the page size asked for, is shown
      each user whose name or email contains the query's trimmed text up to case, and nobody else, exactly once. */
  lemma ClientSeesExactly(u: Unicode, t: Table, order: seq<int>, query: string, limit: int, row: User)
    requires Faithful(u) && Validate(u, query).Ok? && WellFormed(t) && ScanOrder(t, order)
    requires |order| <= 0x7FFF_FFFF_FFFF_FF9C
    ensures var q := Validate(u, query).value;
            var first := ListPage(u, t, order, query, 1, limit, true);
            && first.Ok?
            && var pages := first.value.1.totalPages;
               && pages >= 0
               && var shown := ShownTo(u, t, order, query, limit, pages);
                  && |shown| == first.value.1.total
                  && (row in shown <==>
                        row.id in t.rows && t.rows[row.id] == row
                        && (Contains(u.fold, row.name, q) || Contains(u.fold, row.email, q)))
                  && (forall i, j :: 0 <= i < j < |shown| ==> shown[i] != shown[j])
  {
    hide Validate, ListRows, Contains, Answers, ShownTo, WellFormed, ScanOrder, Matching, Paging.ListedPages, Faithful;
    ScanInTable(t, order);
    var l := Paging.ClampLimit(limit);
    ListRefusedIff(u, t, order, query, 1, l, true);
    ListAnswers(u, t, order, query, 1, l);
    SearchFindsExactly(u, t, order, query, row, l);
    var pages := ListPage(u, t, order, query, 1, limit, true).value.1.totalPages;
    ShownAreAnswers(u, t, order, query, limit, pages);
  }

  /** Each page of the answer repeats what was asked for, clamped, and shows its part of what all pages show. */
  lemma PageAnswers(u: Unicode, t: Table, order: seq<int>, query: string, page: int, limit: int)
    requires Validate(u, query).Ok? && ScanOrder(t, order) && |order| <= 0x7FFF_FFFF_FFFF_FF9C
    requires 1 <= page && 1 <= limit <= 100 && (page - 1) * limit < Paging.TWO_63
    ensures var r := ListPage(u, t, order, query, page, limit, true);
            && r.Ok? && r.value.1.page == page && r.value.1.limit == limit
            && r.value.1.totalPages >= 0
            && Shows(ShownTo(u, t, order, query, limit, r.value.1.totalPages), page, limit, r.value.0)
  {
    hide Validate, ListRows, Answers, ShownTo, ScanOrder, Matching, Paging.ListedPages, Shows;
    ScanInTable(t, order);
    ListRefusedIff(u, t, order, query, page, limit, true);
    ListAnswers(u, t, order, query, page, limit);
    ShownAreAnswers(u, t, order, query, limit, ListPage(u, t, order, query, page, limit, true).value.1.totalPages);
  }

  class Usecase {
    const repo: CachedUserRepository
    const isEmail: EmailRule

    constructor (repo: CachedUserRepository, isEmail: EmailRule)
      ensures this.repo == repo && this.isEmail == isEmail
    {
      this.repo := repo;
      this.isEmail := isEmail;
    }

    method Create(name: string, email: string, lookup: bool, f: Weather) returns (r: Result<int, Error>)
      modifies repo.dbRepo
      ensures r.Ok? ==>
        && r.value !in old(repo.dbRepo.table).rows
        && repo.dbRepo.table.rows == old(repo.dbRepo.table).rows[r.value := User(r.value, name, email)]
      ensures r.Err? ==> repo.dbRepo.table.rows == old(repo.dbRepo.table).rows
      ensures r == Err(Validation) <==> !(3 <= |name| <= 100 && isEmail(email))
      ensures (repo.dbRepo.table, r) ==
              Atomically(isEmail, old(repo.dbRepo.table), CreateUser(name, email), lookup, f.db)
    {
      if !Valid(isEmail, CreateUser(name, email)) {
        return Err(Validation);
      }
      var existing := repo.GetByEmail(email, lookup);
      if existing.Err? {
        return Err(Internal(Unavailable));
      }
      if existing.value.Some? {
        return Err(AlreadyExists);
      }
      r := repo.Create(Some(User(0, name, email)), f.db);
    }

    method Update(id: int, name: string, email: string, lookup: bool, f: Weather) returns (r: Result<int, Error>)
      modifies repo.Footprint()
      ensures r.Ok? ==>
        && r.value == id
        && repo.dbRepo.table.rows == old(repo.dbRepo.table).rows[id := User(id, name, email)]
      ensures r.Err? ==> repo.dbRepo.table.rows == old(repo.dbRepo.table).rows
      ensures r == Err(Validation) <==>
        !(id != 0 && (name == "" || 3 <= |name| <= 100) && (email == "" || isEmail(email)))
      ensures (repo.dbRepo.table, r) ==
              Atomically(isEmail, old(repo.dbRepo.table), UpdateUser(id, name, email), lookup, f.db)
    {
      if !Valid(isEmail, UpdateUser(id, name, email)) {
        return Err(Validation);
      }
      if email != "" {
        var existing := repo.GetByEmail(email, lookup);
        if existing.Err? {
          return Err(Internal(Unavailable));
        }
        if existing.value.Some? && existing.value.value.id != id {
          return Err(AlreadyExists);
        }
      }
      r := repo.Update(Some(User(id, name, email)), f);
    }

    /** The page of the clamped request and its page count. */
    method ListUsers(u: Unicode, order: seq<int>, query: string, page: int, limit: int, up: bool)
      returns (r: Result<(seq<User>, Pagination), Error>)
      requires ScanOrder(repo.dbRepo.table, order)
      ensures r == ListPage(u, repo.dbRepo.table, order, query, page, limit, up)
    {
      var inPage, inLimit := page, limit;
      if inPage <= 0 {
        inPage := 1;
      }
      if inLimit <= 0 {
        inLimit := 10;
      }
      if inLimit > 100 {
        inLimit := 100;
      }
      hide Validate, Select, Paging.Page;
      var listed := repo.List(u, order, query, inPage, inLimit, up);
      if listed.Err? {
        return Err(listed.error);
      }
      var domainUsers, total := listed.value.0, listed.value.1;
      var users: seq<User> := [];
      for i := 0 to |domainUsers|
        invariant users == domainUsers[..i]
      {
        users := users + [User(domainUsers[i].id, domainUsers[i].name, domainUsers[i].email)];
      }
      assert domainUsers[..|domainUsers|] == domainUsers;
      var totalPages := 0;
      if inLimit > 0 {
        totalPages := Quotient(Paging.Wrap(Paging.Wrap(total + inLimit) - 1), inLimit);
      }
      return Ok((users, Pagination(total, inPage, inLimit, totalPages)));
    }
  }
}
