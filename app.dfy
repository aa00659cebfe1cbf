/** The web application around the three counter tables: the increment that runs
    before every route, the read `get_data`, and the three routes `/`, `/comment/`
    and `/like/`. The increment uses the day of the request; the read uses the day
    the process started, which the application captures once at startup. */
module App {
  import opened Counters

  /** Which table a route counts in: `VisitStatistics`, `CommentStatistics` or `LikeStatistics`. */
  datatype Kind = Visit | Comment | Like

  /** The three tables `visit_statistics`, `comment_statistics` and `like_statistics`. */
  datatype Store = Store(visits: Table, comments: Table, likes: Table)

  /** What `get_data` returns, in its order: comments, likes, visits. */
  type Counts = (int, int, int)

  /** The values a route hands to the page template. */
  datatype Page = Page(date: Date, visits: int, comments: int, likes: int)

  /** An empty database, with no row in any table. */
  const Empty := Store([], [], [])

  /** The table of kind `k`. */
  function TableOf(s: Store, k: Kind): Table {
    match k
    case Visit => s.visits
    case Comment => s.comments
    case Like => s.likes
  }

  /** Every table of the store keeps the counter invariant. */
  predicate StoreWellFormed(s: Store) {
    WellFormed(s.visits) && WellFormed(s.comments) && WellFormed(s.likes)
  }

  /** The store after one event of kind `k` on day `today` has been committed:
      the table of `k` receives the increment, the other two keep their rows. */
  function Record(s: Store, k: Kind, today: Date): (r: Store)
    ensures TableOf(r, k) == Bump(TableOf(s, k), today)
    ensures forall j: Kind :: j != k ==> TableOf(r, j) == TableOf(s, j)
  {
    match k
    case Visit => s.(visits := Bump(s.visits, today))
    case Comment => s.(comments := Bump(s.comments, today))
    case Like => s.(likes := Bump(s.likes, today))
  }

  /** `get_data`: the count of each table for day `date`, as `(comments, likes, visits)`.
      A table with no row for the day reads 0; in well-formed tables a count is
      at least 1 exactly when its table has a row for the day. */
  function GetData(s: Store, date: Date): (r: Counts)
    ensures HasNoRow(s.comments, date) ==> r.0 == 0
    ensures HasNoRow(s.likes, date) ==> r.1 == 0
    ensures HasNoRow(s.visits, date) ==> r.2 == 0
    ensures StoreWellFormed(s) ==> (r.0 >= 1 <==> !HasNoRow(s.comments, date))
    ensures StoreWellFormed(s) ==> (r.1 >= 1 <==> !HasNoRow(s.likes, date))
    ensures StoreWellFormed(s) ==> (r.2 >= 1 <==> !HasNoRow(s.visits, date))
  {
    (Count(s.comments, date), Count(s.likes, date), Count(s.visits, date))
  }

  /** What a route does with the result of `get_data`: it unpacks it as
      `comments, likes, visits` and passes each under its own name. */
  function Render(c: Counts, date: Date): Page {
    var (comments, likes, visits) := c;
    Page(date, visits, comments, likes)
  }

  /** The count a page shows for kind `k`. */
  function Shown(p: Page, k: Kind): int {
    match k
    case Visit => p.visits
    case Comment => p.comments
    case Like => p.likes
  }

  /** The store after a sequence of requests, each given as its kind and its day. */
  function Replay(s: Store, requests: seq<(Kind, Date)>): (r: Store)
    ensures forall k: Kind :: |TableOf(r, k)| >= |TableOf(s, k)|
    ensures forall k: Kind, i | 0 <= i < |TableOf(s, k)| ::
      TableOf(r, k)[i].id == TableOf(s, k)[i].id && TableOf(r, k)[i].date == TableOf(s, k)[i].date
    decreases |requests|
  {
    if requests == [] then s
    else Replay(Record(s, requests[0].0, requests[0].1), requests[1..])
  }

  /** How many of `requests` were of kind `k` on day `d`. */
  function Occurrences(requests: seq<(Kind, Date)>, k: Kind, d: Date): nat
    decreases |requests|
  {
    if requests == [] then 0
    else (if requests[0] == (k, d) then 1 else 0) + Occurrences(requests[1..], k, d)
  }

  /** An increment of kind `k` changes the count of `k` on `today` by one and no
      other count: not another kind's on any day, not `k`'s on another day. */
  lemma CountAfterRecord(s: Store, k: Kind, today: Date, j: Kind, d: Date)
    ensures Count(TableOf(Record(s, k, today), j), d)
         == Count(TableOf(s, j), d) + (if j == k && d == today then 1 else 0)
  {
    if j == k {
      CountAfterBump(TableOf(s, k), today, d);
    }
  }

  /** The increment keeps every table of the store well formed. */
  lemma RecordWellFormed(s: Store, k: Kind, today: Date)
    requires StoreWellFormed(s)
    ensures StoreWellFormed(Record(s, k, today))
  {
  }

  /** The page shows each kind's count under that kind's name, so the order of
      `get_data`'s result and the order its callers unpack agree; a kind with no
      row on the day shows 0. */
  lemma ShownIsCount(s: Store, date: Date, k: Kind)
    ensures Shown(Render(GetData(s, date), date), k) == Count(TableOf(s, k), date)
    ensures HasNoRow(TableOf(s, k), date) ==> Shown(Render(GetData(s, date), date), k) == 0
  {
  }

  /** What one request of kind `k` on day `today` does to the page, which reads
      the startup day: when the two days agree, the count of `k` goes up by one
      and the other two are unchanged; when they differ, nothing shown changes. */
  lemma {:induction false} ShownAfterRequest(s: Store, k: Kind, today: Date, startup: Date)
    ensures var before := Render(GetData(s, startup), startup);
      var after := Render(GetData(Record(s, k, today), startup), startup);
      Shown(after, k) == Shown(before, k) + (if today == startup then 1 else 0) &&
      (forall j: Kind :: j != k ==> Shown(after, j) == Shown(before, j)) &&
      (today != startup ==> after == before)
  {
    forall j: Kind
      ensures Shown(Render(GetData(Record(s, k, today), startup), startup), j)
           == Shown(Render(GetData(s, startup), startup), j) + (if j == k && today == startup then 1 else 0)
    {
      ShownIsCount(Record(s, k, today), startup, j);
      ShownIsCount(s, startup, j);
      CountAfterRecord(s, k, today, j, startup);
    }
  }

  /** After any sequence of requests, the count of each kind on each day is the
      count it started with plus the number of those requests of that kind on
      that day; from an empty database it is exactly that number, so a day that
      was never requested reads 0. */
  lemma {:induction false} CountIsOccurrences(s: Store, requests: seq<(Kind, Date)>, k: Kind, d: Date)
    ensures Count(TableOf(Replay(s, requests), k), d) == Count(TableOf(s, k), d) + Occurrences(requests, k, d)
    ensures s == Empty ==> Count(TableOf(Replay(s, requests), k), d) == Occurrences(requests, k, d)
    decreases |requests|
  {
    if requests != [] {
      var (k0, d0) := requests[0];
      CountIsOccurrences(Record(s, k0, d0), requests[1..], k, d);
      CountAfterRecord(s, k0, d0, k, d);
    }
  }

  /** Every sequence of requests keeps the store well formed. */
  lemma {:induction false} ReplayWellFormed(s: Store, requests: seq<(Kind, Date)>)
    requires StoreWellFormed(s)
    ensures StoreWellFormed(Replay(s, requests))
    decreases |requests|
  {
    if requests != [] {
      RecordWellFormed(s, requests[0].0, requests[0].1);
      ReplayWellFormed(Record(s, requests[0].0, requests[0].1), requests[1..]);
    }
  }

  /** The running application: the three tables and the day captured at startup. */
  class Site {
    var visits: Table
    var comments: Table
    var likes: Table
    /** The module-level `date`, computed once when the application starts. */
    const startup: Date

    /** The tables as one value. */
    function State(): Store
      reads this
    {
      Store(visits, comments, likes)
    }

    ghost predicate Valid()
      reads this
    {
      StoreWellFormed(State())
    }

    /** Start the application over the database as it is, on day `today`. */
    constructor (initial: Store, today: Date)
      ensures State() == initial && startup == today
      ensures StoreWellFormed(initial) ==> Valid()
    {
      visits, comments, likes := initial.visits, initial.comments, initial.likes;
      startup := today;
    }

    /** The step `statistic_traffic` runs before each route: look up the first row
        of the kind's table for `today`; append `(id, today, 1)` when there is none,
        otherwise raise that row's `times` by one; then commit. The lookup and the
        two branches are `Bump` written as an update of the table field, and the
        first `ensures` ties the two together. */
    method RecordAndIncrement(kind: Kind, today: Date)
      modifies this
      ensures State() == Record(old(State()), kind, today)
      ensures old(Valid()) ==> Valid()
    {
      var t := TableOf(State(), kind);
      var found := FindFirst(t, today);
      match found {
        case None =>
          t := t + [Row(NextId(t), today, 1)];
        case Some(i) =>
          t := t[i := t[i].(times := t[i].times + 1)];
      }
      match kind {
        case Visit => visits := t;
        case Comment => comments := t;
        case Like => likes := t;
      }
      if StoreWellFormed(old(State())) {
        RecordWellFormed(old(State()), kind, today);
      }
    }

    /** Route `/`: count a visit on `today`, then render the startup day's counts. */
    method Index(today: Date) returns (page: Page)
      modifies this
      ensures State() == Record(old(State()), Visit, today)
      ensures old(Valid()) ==> Valid()
      ensures page == Render(GetData(State(), startup), startup)
      ensures old(Valid()) && today == startup ==> page.visits >= 1
    {
      RecordAndIncrement(Visit, today);
      page := Render(GetData(State(), startup), startup);
    }

    /** Route `/comment/`: count a comment on `today`, then render the startup day's counts. */
    method CommentRoute(today: Date) returns (page: Page)
      modifies this
      ensures State() == Record(old(State()), Comment, today)
      ensures old(Valid()) ==> Valid()
      ensures page == Render(GetData(State(), startup), startup)
      ensures old(Valid()) && today == startup ==> page.comments >= 1
    {
      RecordAndIncrement(Comment, today);
      page := Render(GetData(State(), startup), startup);
    }

    /** Route `/like/`: count a like on `today`, then render the startup day's counts. */
    method LikeRoute(today: Date) returns (page: Page)
      modifies this
      ensures State() == Record(old(State()), Like, today)
      ensures old(Valid()) ==> Valid()
      ensures page == Render(GetData(State(), startup), startup)
      ensures old(Valid()) && today == startup ==> page.likes >= 1
    {
      RecordAndIncrement(Like, today);
      page := Render(GetData(State(), startup), startup);
    }
  }

  /** A sequence of requests against a fresh database, all on the startup day
      `d` until the last, which comes the next day: `/`, `/comment/` and `/` show
      visits 1, 2 and comments 1; the `/like/` of the next day creates a like row
      for that day, yet the page still shows day `d`, with no like counted. */
  method Scenario(d: Date)
  {
    var site := new Site(Empty, d);
    var p1 := site.Index(d);
    ShownIsCount(site.State(), d, Visit);
    assert p1 == Page(d, 1, 0, 0);
    var p2 := site.CommentRoute(d);
    assert p2 == Page(d, 1, 1, 0);
    var p3 := site.Index(d);
    assert p3 == Page(d, 2, 1, 0);
    var p4 := site.LikeRoute(d + 1);
    assert p4 == Page(d, 2, 1, 0);
    assert Count(site.likes, d + 1) == 1;
  }
}
