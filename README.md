# Daily traffic counters

A model of a small Flask application that counts, per calendar day, three kinds
of events: page visits, comments and likes. Each kind has its own table
(`VisitStatistics`, `CommentStatistics`, `LikeStatistics`) with rows
`(id, date, times)`. Before each route runs, `statistic_traffic` looks up the
first row of the route's table for the request day. It appends a row with
`times = 1` when there is none and raises that row's `times` by one when there
is one, then commits. `get_data` reads the first row of each table for a day and
returns `(comments, likes, visits)`, with 0 for a table that has no row. The
routes `/`, `/comment/` and `/like/` each count one kind and then render all
three counts.

- `counters.dfy`, module `Counters`: one table as a sequence of rows, the
  first-row lookup, the count a read reports, the key a new row receives, and
  the increment as a function `Bump`, with its lemmas.
- `app.dfy`, module `App`: the three tables as a `Store` value, the increment
  applied to one kind (`Record`), `get_data` (`GetData`), the way routes unpack
  its result (`Render`), and a class `Site` whose fields are the three tables.
  Its methods `RecordAndIncrement`, `Index`, `CommentRoute` and `LikeRoute`
  update the tables in place; each is proved against `Record`.

The day of a request and the day the application started are separate
parameters. The increment uses the request day (`datetime.date.today()` inside
the wrapper). `get_data` and the rendered page use the module-level `date`,
computed once at startup, which `Site` holds as the constant `startup`. So a
request's own count shows on its page only when the request day is the
startup day (`App.ShownAfterRequest`). A program that took "today" per request
for the read as well would show each request on its own page; this code does
not, and the model follows the code. `App.Scenario` walks a fresh database through `/`,
`/comment/` and `/`, then a `/like/` on the next day. That last page still
shows the startup day's counts and no like, although a like row for the new
day now exists.

Days are integers (`Counters.Date`), because the code only compares them for
equality. A new row's `id` is one more than the largest `id` in its table, or 1
in an empty table. That is how SQLite assigns an integer primary key that has no
`AUTOINCREMENT` keyword.

## Model

| member | source | states |
|---|---|---|
| `Counters.FindFirst` | app/app.py:57 | The lookup returns `None` exactly when no row has the day, and otherwise the index of a row with that day before which no row has it (the first match). |
| `Counters.Count` | app/app.py:82-93 | A day with no row reads 0; in a well-formed table a day that has a row reads at least 1. |
| `Counters.NextId` | app/app.py:25 | The key of a new row is at least 1, larger than every key in the table, and either 1 or one more than an existing key. |
| `Counters.Bump` | app/app.py:57-62 | The increment adds a row exactly when the day had none, keeps the key and day of every existing row, and leaves the day with a row. |
| `Counters.BumpTimes` | app/app.py:56-62 | Any number `n >= 1` of increments for one day adds at most one row (exactly one when the day had none), keeps every existing row's key and day, and leaves the day with a row. |
| `Counters.BumpAbsent` | app/app.py:58-60 | Incrementing a day with no row appends exactly one row, dated that day, with `times = 1` and the key `NextId` gives, which no existing row has; the existing rows are unchanged. |
| `Counters.BumpPresent` | app/app.py:57-62 | Incrementing a day that has a row raises the first matching row's `times` by exactly 1, keeps its key and day, adds no row and changes no other row. |
| `Counters.CountAfterBump` | app/app.py:56-62 | After an increment for day `d`, the count read for `d` is one higher and the count of every other day is unchanged. |
| `Counters.BumpWellFormed` | app/app.py:25-62 | The increment preserves the invariant: keys distinct, at most one row per day, every `times` at least 1. |
| `Counters.CountAfterBumps` | app/app.py:56-93 | `n` increments in a row for day `d` raise its count by `n`; from a table with no row for `d`, the lookup then returns `n`. |
| `App.Record` | app/app.py:46-66 | An increment of kind `k` puts the increment on `k`'s table and leaves the other two tables as they were. |
| `App.GetData` | app/app.py:78-94 | Each of the three counts is 0 when its table has no row for the day; in well-formed tables each is at least 1 exactly when its table has a row for the day. |
| `App.Replay` | app/app.py:46-66 | A sequence of requests never removes a row and never changes the key or day of a row that was already there, in any of the three tables. |
| `App.CountAfterRecord` | app/app.py:46-66 | An increment of kind `k` on day `today` raises the count of `k` on `today` by one and leaves every other (kind, day) count unchanged. |
| `App.RecordWellFormed` | app/app.py:57-62 | An increment of any kind keeps all three tables well formed. |
| `App.ShownIsCount` | app/app.py:78-101 | The page shows each kind's count under that kind's name, so `get_data`'s order `(comments, likes, visits)` and the callers' unpacking agree; a kind with no row for the day shows 0. |
| `App.ShownAfterRequest` | app/app.py:75-115 | After one request, the page shows that route's kind one higher and the other two unchanged when the request day is the startup day; otherwise the page is exactly what it was. |
| `App.CountIsOccurrences` | app/app.py:56-93 | After any sequence of requests, each (kind, day) count equals its starting count plus the number of those requests with that kind and day; from an empty database, exactly that number (0 for a day never requested). |
| `App.ReplayWellFormed` | app/app.py:57-62 | Any sequence of requests keeps all three tables well formed. |
| `App.Site.constructor` | app/app.py:72-75 | The application starts over the database as it finds it and captures the startup day once; a well-formed database gives a valid `Site`. |
| `App.Site.RecordAndIncrement` | app/app.py:55-63 | Updates the chosen table in place to `Record` of the old tables; the well-formedness invariant is kept. |
| `App.Site.Index` | app/app.py:97-101 | Route `/`: counts a visit on the request day, then returns the page that `get_data` for the startup day produces on the new tables. On a valid `Site`, a request on the startup day shows a visit count of at least 1. |
| `App.Site.CommentRoute` | app/app.py:104-108 | Route `/comment/`: counts a comment on the request day, then returns the startup day's page on the new tables. On a valid `Site`, a request on the startup day shows a comment count of at least 1. |
| `App.Site.LikeRoute` | app/app.py:111-115 | Route `/like/`: counts a like on the request day, then returns the startup day's page on the new tables. On a valid `Site`, a request on the startup day shows a like count of at least 1. |

## Left out

- Flask application construction, URL routing and `render_template`: the model stops at the values handed to the template (`App.Page`).
- The SQLite URI, the platform prefix, `basedir`, `db.init_app` and `db.create_all`: configuration and ORM set-up. `Site`'s constructor takes the database contents as a parameter.
- Durability and failures of `db.session.add` and `db.session.commit`: a commit is the in-memory update taking effect, and persistence errors are not modelled.
- `datetime.date.today()` as a clock: the request day and the startup day are parameters.
- Concurrent requests and the lost update between two simultaneous increments: the model is sequential.
- The `functools.wraps` decorator mechanics: each route is "increment, then read and render".
- The database's integer width: `times` and `id` are unbounded integers, so a 64-bit overflow in SQLite is not modelled.
- A `NULL` in the `times` column, which no code path here writes: `times` is always an integer.
- Row order of the query: it has no `ORDER BY`, and the model takes "first" as the first row in insertion order. Under the invariant at most one row matches, so the choice does not matter.
