/** A paged inventory read from an arbitrary server (internal/provider/jamf/inventory.go). */
module PagingModel {
  import opened Basics
  import opened Sorting

  /** One answer of the server: a failed or malformed response, or a page and the total it claims. */
  datatype Response<+Row> = Failed | Malformed | Page(total: int, rows: seq<Row>)

  datatype PageError =
    | InvalidRequest | RequestFailed | MalformedPage | InvalidTotal | TotalChanged | EndedEarly
    | MissingID | DuplicateID

  function ValidatePage(expectedTotal: int, total: int, seen: nat, pageRows: nat): Option<PageError> {
    if total < 0 || total < seen + pageRows then Some(InvalidTotal)
    else if expectedTotal >= 0 && total != expectedTotal then Some(TotalChanged)
    else if pageRows == 0 && seen != total then Some(EndedEarly)
    else None
  }

  /** The rows of the first `n` pages, in page order; `server` gives the answer for each page number. */
  function RowsOf<Row>(server: nat -> Response<Row>, n: nat): seq<Row> {
    if n == 0 then []
    else RowsOf(server, n - 1) + (if server(n - 1).Page? then server(n - 1).rows else [])
  }

  function IDs<Row>(rows: seq<Row>, id: Row -> string): seq<string> {
    seq(|rows|, i requires 0 <= i < |rows| => id(rows[i]))
  }

  ghost predicate GoodIDs<Row>(rows: seq<Row>, id: Row -> string) {
    NoRepeats(IDs(rows, id)) && "" !in IDs(rows, id)
  }

  /** The first `n` answers are pages that agree on a total, and their rows are well identified. */
  ghost predicate Agree<Row>(server: nat -> Response<Row>, n: nat, id: Row -> string) {
    && (n > 0 ==> server(0).Page?)
    && (forall p: nat | p < n :: server(p).Page? && server(p).total == server(0).total)
    && GoodIDs(RowsOf(server, n), id)
  }

  /**
   * The first `n` pages are a whole inventory: they hold exactly as many rows as they say there are,
   * and none of them is empty unless there is nothing to list.
   */
  ghost predicate Complete<Row>(server: nat -> Response<Row>, n: nat, id: Row -> string) {
    && n > 0 && Agree(server, n, id) && |RowsOf(server, n)| == server(0).total
    && (n == 1 || forall p: nat | p < n :: server(p).rows != [])
  }

  /** Some number of pages is a whole inventory. */
  ghost predicate Listable<Row>(server: nat -> Response<Row>, id: Row -> string) {
    exists n: nat :: Complete(server, n, id)
  }

  /** More pages are needed. */
  ghost predicate Partial<Row>(server: nat -> Response<Row>, n: nat, id: Row -> string) {
    && Agree(server, n, id)
    && (forall p: nat | p < n :: server(p).rows != [])
    && n <= |RowsOf(server, n)|
    && (n > 0 ==> |RowsOf(server, n)| < server(0).total)
  }

  /** Page `n` passes every check the loop makes. */
  ghost predicate Accepted<Row>(server: nat -> Response<Row>, n: nat, id: Row -> string) {
    && server(n).Page?
    && ValidatePage(if n == 0 then -1 else if server(0).Page? then server(0).total else -1,
                    server(n).total, |RowsOf(server, n)|, |server(n).rows|) == None
    && GoodIDs(RowsOf(server, n + 1), id)
  }

  /** Row `k` of the page is the first without an ID, or with one that came before. */
  ghost predicate BadRow<Row>(before: seq<Row>, rows: seq<Row>, id: Row -> string, k: nat, error: PageError) {
    && k < |rows| && GoodIDs(before + rows[..k], id)
    && if id(rows[k]) == "" then error == MissingID
       else error == DuplicateID && id(rows[k]) in IDs(before + rows[..k], id)
  }

  /** Why page `n` is not taken: the total is looked at first, then the length, then each row's ID. */
  ghost predicate Refuses<Row>(server: nat -> Response<Row>, n: nat, id: Row -> string, error: PageError) {
    match server(n)
    case Failed => error == RequestFailed
    case Malformed => error == MalformedPage
    case Page(total, rows) =>
      var before := RowsOf(server, n);
      if total < 0 || |before| + |rows| > total then error == InvalidTotal
      else if n > 0 && server(0).Page? && total != server(0).total then error == TotalChanged
      else if rows == [] && |before| < total then error == EndedEarly
      else exists k: nat :: BadRow(before, rows, id, k, error)
  }

  lemma AcceptedExtends<Row>(server: nat -> Response<Row>, n: nat, id: Row -> string)
    requires Partial(server, n, id) && Accepted(server, n, id)
    ensures |RowsOf(server, n + 1)| == |RowsOf(server, n)| + |server(n).rows| <= server(0).total
    ensures |RowsOf(server, n + 1)| == server(0).total ==> Complete(server, n + 1, id)
    ensures |RowsOf(server, n + 1)| != server(0).total ==> Partial(server, n + 1, id)
  {
  }

  /** Rows stand page after page, each page in its own order. */
  lemma {:induction false} RowAt<Row>(server: nat -> Response<Row>, n: nat, p: nat, j: nat)
    requires p < n && server(p).Page? && j < |server(p).rows|
    ensures |RowsOf(server, p)| + j < |RowsOf(server, n)|
    ensures RowsOf(server, n)[|RowsOf(server, p)| + j] == server(p).rows[j]
    decreases n
  {
    if p < n - 1 {
      RowAt(server, n - 1, p, j);
    }
  }

  lemma {:induction false} RowsGrow<Row>(server: nat -> Response<Row>, n: nat, m: nat)
    requires n <= m
    ensures RowsOf(server, n) <= RowsOf(server, m)
    decreases m
  {
    if n < m {
      RowsGrow(server, n, m - 1);
    }
  }

  lemma GoodPrefix<Row>(rows: seq<Row>, more: seq<Row>, id: Row -> string)
    requires rows <= more && GoodIDs(more, id)
    ensures GoodIDs(rows, id)
  {
    assert IDs(rows, id) == IDs(more, id)[..|rows|];
  }

  lemma TooEarly<Row>(server: nat -> Response<Row>, n: nat, m: nat, id: Row -> string)
    requires Partial(server, n, id) && m <= n
    ensures !Complete(server, m, id)
  {
    RowsGrow(server, m, n);
  }

  /** The pages of a whole inventory pass every check. */
  lemma CompleteAccepts<Row>(server: nat -> Response<Row>, n: nat, m: nat, id: Row -> string)
    requires Partial(server, n, id) && Complete(server, m, id) && n < m
    ensures Accepted(server, n, id)
  {
    RowsGrow(server, n + 1, m);
    GoodPrefix(RowsOf(server, n + 1), RowsOf(server, m), id);
    assert server(n).Page? && server(n).total == server(0).total;
    if server(n).rows == [] {
      assert n == 0 && m == 1;
    }
  }

  lemma RefusedMeansNone<Row>(server: nat -> Response<Row>, n: nat, id: Row -> string)
    requires Partial(server, n, id) && !Accepted(server, n, id)
    ensures !Listable(server, id)
  {
    forall m: nat ensures !Complete(server, m, id) {
      if m <= n {
        TooEarly(server, n, m, id);
      } else if Complete(server, m, id) {
        CompleteAccepts(server, n, m, id);
      }
    }
  }

  lemma NotLater<Row>(server: nat -> Response<Row>, n: nat, m: nat, id: Row -> string)
    requires Complete(server, n, id) && Complete(server, m, id)
    ensures m <= n
  {
    if n < m {
      RowsGrow(server, n + 1, m);
    }
  }

  /** At most one number of pages makes a whole inventory. */
  lemma CompleteOnce<Row>(server: nat -> Response<Row>, n: nat, m: nat, id: Row -> string)
    requires Complete(server, n, id) && Complete(server, m, id)
    ensures n == m
  {
    NotLater(server, n, m, id);
    NotLater(server, m, n, id);
  }
}
