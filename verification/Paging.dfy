/** Offset pagination of ListTasks, with the decimal page tokens it hands out. */
module Paging {
  import opened Options

  const MAX_INT: int := 0x7fff_ffff_ffff_ffff
  const DEFAULT_PAGE_SIZE := 1000
  const MAX_PAGE_SIZE := 1000

  // ---------------------------------------------------------------- strconv

  predicate IsDigit(ch: char) { '0' <= ch <= '9' }

  /** strconv.Itoa for the offsets that occur. */
  function Itoa(n: nat): string {
    if n < 10 then [n as char + '0'] else Itoa(n / 10) + [(n % 10) as char + '0']
  }

  /** The value of a string of digits. */
  function Digits(s: string): Option<nat> {
    if s == [] then Some(0)
    else
      var init := Digits(s[..|s| - 1]);
      if init.None? || !IsDigit(s[|s| - 1]) then None
      else Some(10 * init.value + (s[|s| - 1] as int - '0' as int))
  }

  /** strconv.Atoi: an optional sign, then at least one digit, within the range of an int. */
  function Atoi(s: string): Option<int> {
    var signed := s != [] && (s[0] == '-' || s[0] == '+');
    var digits := if signed then s[1..] else s;
    var n := Digits(digits);
    if digits == [] || n.None? then None
    else
      var v: int := if signed && s[0] == '-' then -(n.value as int) else n.value;
      if -MAX_INT - 1 <= v <= MAX_INT then Some(v) else None
  }

  lemma {:induction false} ItoaDigits(n: nat)
    ensures Itoa(n) != [] && IsDigit(Itoa(n)[0]) && Digits(Itoa(n)) == Some(n)
  {
    if n < 10 {
      assert Itoa(n)[..0] == [];
    } else {
      ItoaDigits(n / 10);
      assert Itoa(n)[..|Itoa(n)| - 1] == Itoa(n / 10);
    }
  }

  /** A token that was handed out is read back as the offset it stands for. */
  lemma TokenRoundTrip(n: nat)
    requires n <= MAX_INT
    ensures Itoa(n) != "" && Atoi(Itoa(n)) == Some(n)
  {
    ItoaDigits(n);
  }

  predicate AllDigits(s: string) { |s| > 0 && forall i :: 0 <= i < |s| ==> '0' <= s[i] <= '9' }

  /** The number that decimal digits denote. */
  function Value(s: string): int {
    if s == [] then 0 else 10 * Value(s[..|s| - 1]) + (s[|s| - 1] as int - '0' as int)
  }

  function IfInt(v: int): Option<int> { if -0x8000_0000_0000_0000 <= v < 0x8000_0000_0000_0000 then Some(v) else None }

  lemma {:induction false} DigitsDenote(s: string)
    ensures Digits(s).Some? <==> s == [] || AllDigits(s)
    ensures Digits(s).Some? ==> Digits(s).value == Value(s)
  {
    if s != [] {
      DigitsDenote(s[..|s| - 1]);
    }
  }

  /** Atoi reads decimal digits, with or without a sign, as the number they denote if it is an int64. */
  lemma AtoiReads(d: string)
    requires AllDigits(d)
    ensures Atoi(d) == IfInt(Value(d)) && Atoi("+" + d) == IfInt(Value(d)) && Atoi("-" + d) == IfInt(-Value(d))
  {
    DigitsDenote(d);
    assert ("+" + d)[1..] == d && ("-" + d)[1..] == d;
  }

  /** It reads nothing else. */
  lemma AtoiReadsOnly(s: string)
    requires Atoi(s).Some?
    ensures AllDigits(s) || (|s| > 0 && (s[0] == '+' || s[0] == '-') && AllDigits(s[1..]))
  {
    DigitsDenote(s);
    if |s| > 0 {
      DigitsDenote(s[1..]);
    }
  }

  // ---------------------------------------------------------------- pages

  /** `LIMIT ? OFFSET ?` on an ordered result; a negative limit means no limit. */
  function Slice<T>(all: seq<T>, limit: int, offset: nat): seq<T> {
    var from := if offset <= |all| then offset else |all|;
    var to := if limit < 0 || from + limit > |all| then |all| else from + limit;
    all[from..to]
  }

  datatype Page<T> = Page(tasks: seq<T>, nextToken: string) | InvalidArgument

  function PageSize(requested: int): int {
    if requested <= 0 then DEFAULT_PAGE_SIZE else if requested <= MAX_PAGE_SIZE then requested else MAX_PAGE_SIZE
  }

  /** ListTasks: one row more than the page is fetched, to know whether another page exists. */
  function ListTasks<T>(all: seq<T>, requested: int, token: string): Page<T> {
    var n := if token == "" then Some(0) else Atoi(token);
    if requested < 0 || n.None? || n.value < 0 then InvalidArgument
    else
      var size := PageSize(requested);
      var list := Slice(all, size + 1, n.value);
      if |list| > size then Page(list[..size], Itoa(n.value + size)) else Page(list, "")
  }

  /** A page holds the next rows from its offset, and names the offset after them exactly when rows
      are left. */
  lemma PageAt<T>(all: seq<T>, requested: int, token: string, offset: nat)
    requires requested >= 0 && (if token == "" then offset == 0 else Atoi(token) == Some(offset))
    ensures var p, size := ListTasks(all, requested, token), PageSize(requested);
            && p.Page?
            && (offset + size < |all| ==> p == Page(all[offset..offset + size], Itoa(offset + size)))
            && (offset + size >= |all| ==> p == Page(if offset <= |all| then all[offset..] else [], ""))
  {
  }

  /** A page has as many rows as are left, up to the page size asked for; 1000 if none is, and never more. */
  lemma PageLength<T>(all: seq<T>, requested: int, token: string, offset: nat)
    requires requested >= 0 && (if token == "" then offset == 0 else Atoi(token) == Some(offset))
    ensures var p, left := ListTasks(all, requested, token), if offset <= |all| then |all| - offset else 0;
            var most := if requested == 0 || requested > 1000 then 1000 else requested;
            p.Page? && |p.tasks| == (if left <= most then left else most) && (p.nextToken == "" <==> left <= most)
  {
    PageAt(all, requested, token, offset);
    ItoaDigits(offset + PageSize(requested));
  }

  /** What is refused: a negative page size, and a token that is not a number from zero on. */
  lemma RefusedExactly<T>(all: seq<T>, requested: int, token: string)
    ensures ListTasks(all, requested, token).InvalidArgument?
            <==> requested < 0 || (|token| > 0 && (Atoi(token).None? || Atoi(token).value < 0))
  {
  }

  /** Everything a client receives that starts at `token` and follows the page tokens. */
  function Follow<T>(all: seq<T>, requested: nat, token: string, offset: nat): seq<T>
    requires |all| <= MAX_INT && (if token == "" then offset == 0 else Atoi(token) == Some(offset))
    decreases |all| - offset
  {
    PageAt(all, requested, token, offset);
    var p := ListTasks(all, requested, token);
    if p.nextToken == "" then p.tasks
    else
      TokenRoundTrip(offset + PageSize(requested));
      p.tasks + Follow(all, requested, p.nextToken, offset + PageSize(requested))
  }

  lemma {:induction false} FollowFrom<T>(all: seq<T>, requested: nat, token: string, offset: nat)
    requires |all| <= MAX_INT && offset <= |all|
    requires if token == "" then offset == 0 else Atoi(token) == Some(offset)
    ensures Follow(all, requested, token, offset) == all[offset..]
    decreases |all| - offset
  {
    var size := PageSize(requested);
    PageAt(all, requested, token, offset);
    if offset + size < |all| {
      TokenRoundTrip(offset + size);
      FollowFrom(all, requested, Itoa(offset + size), offset + size);
      assert all[offset..] == all[offset..offset + size] + all[offset + size..];
    }
  }

  /** Following the tokens from the first page ends, and returns the full listing: every task once,
      in order, whatever page size was asked for. */
  lemma PagesAreTheListing<T>(all: seq<T>, requested: nat)
    requires |all| <= MAX_INT
    ensures Follow(all, requested, "", 0) == all
  {
    FollowFrom(all, requested, "", 0);
    assert all[0..] == all;
  }

  // ---------------------------------------------------------------- the listing of a table

  /** What the ordering of the listing reads of a row; created_at by the order of its text. */
  datatype TaskRow = TaskRow(queue: string, createdAt: int, rowid: int)

  type Table = map<string, TaskRow>

  predicate DistinctRowids(rows: Table) {
    forall a, b :: a in rows && b in rows && a != b ==> rows[a].rowid != rows[b].rowid
  }

  /** ORDER BY created_at DESC, rowid DESC. */
  predicate Newer(a: TaskRow, b: TaskRow) {
    a.createdAt > b.createdAt || (a.createdAt == b.createdAt && a.rowid > b.rowid)
  }

  function OfQueue(rows: Table, queue: string): set<string> { set id | id in rows && rows[id].queue == queue }

  /** All of these rows, newest first. */
  ghost predicate IsListing(rows: Table, ids: set<string>, all: seq<string>)
    requires ids <= rows.Keys
  {
    && (forall i :: 0 <= i < |all| ==> all[i] in ids)
    && (forall i, j :: 0 <= i < j < |all| ==> Newer(rows[all[i]], rows[all[j]]))
    && (forall id :: id in ids ==> id in all)
  }

  lemma {:induction false} Newest(rows: Table, ids: set<string>) returns (best: string)
    requires ids != {} && ids <= rows.Keys && DistinctRowids(rows)
    ensures best in ids && forall id :: id in ids && id != best ==> Newer(rows[best], rows[id])
    decreases |ids|
  {
    best :| best in ids;
    if ids != {best} {
      assert ids == (ids - {best}) + {best};
      var other := Newest(rows, ids - {best});
      best := if Newer(rows[other], rows[best]) then other else best;
    }
  }

  /** The tail of a listing is the listing of the other rows. */
  lemma TailIsListing(rows: Table, ids: set<string>, all: seq<string>)
    requires ids <= rows.Keys && IsListing(rows, ids, all) && all != []
    ensures all[0] in ids && IsListing(rows, ids - {all[0]}, all[1..])
    ensures forall id :: id in ids && id != all[0] ==> Newer(rows[all[0]], rows[id])
  {
    forall id | id in ids && id != all[0] ensures id in all[1..] && Newer(rows[all[0]], rows[id]) {
      var i :| 0 <= i < |all| && all[i] == id;
      assert all[1..][i - 1] == id;
    }
    forall i | 0 <= i < |all[1..]| ensures all[1..][i] in ids - {all[0]} {
      assert Newer(rows[all[0]], rows[all[i + 1]]);
    }
  }

  lemma {:induction false} ListingLength(rows: Table, ids: set<string>, all: seq<string>)
    requires ids <= rows.Keys && IsListing(rows, ids, all)
    ensures |all| == |ids|
    decreases |all|
  {
    if all == [] {
      assert forall id :: id in ids ==> id in all;
      assert ids == {};
    } else {
      TailIsListing(rows, ids, all);
      ListingLength(rows, ids - {all[0]}, all[1..]);
    }
  }

  /** The order leaves no choice: a set of rows has one listing. */
  lemma {:induction false} ListingIsUnique(rows: Table, ids: set<string>, a: seq<string>, b: seq<string>)
    requires ids <= rows.Keys && IsListing(rows, ids, a) && IsListing(rows, ids, b)
    ensures a == b
    decreases |a|
  {
    ListingLength(rows, ids, a);
    ListingLength(rows, ids, b);
    if a != [] {
      TailIsListing(rows, ids, a);
      TailIsListing(rows, ids, b);
      assert a[0] == b[0];
      ListingIsUnique(rows, ids - {a[0]}, a[1..], b[1..]);
      assert a == [a[0]] + a[1..] && b == [b[0]] + b[1..];
    }
  }

  lemma {:induction false} ListingExists(rows: Table, ids: set<string>) returns (all: seq<string>)
    requires ids <= rows.Keys && DistinctRowids(rows)
    ensures IsListing(rows, ids, all) && |all| == |ids|
    decreases |ids|
  {
    all := [];
    if ids != {} {
      var best := Newest(rows, ids);
      var rest := ListingExists(rows, ids - {best});
      all := [best] + rest;
      assert ids == (ids - {best}) + {best};
    }
  }

  lemma {:induction false} ListedOnce(rows: Table, ids: set<string>, all: seq<string>, id: string)
    requires ids <= rows.Keys && IsListing(rows, ids, all)
    ensures multiset(all)[id] == if id in ids then 1 else 0
    decreases |all|
  {
    if all != [] {
      TailIsListing(rows, ids, all);
      ListedOnce(rows, ids - {all[0]}, all[1..], id);
      assert all == [all[0]] + all[1..];
    } else {
      assert id in ids ==> id in all;
    }
  }

  /** On an unchanged table, following the page tokens from the start returns every task of the queue
      exactly once, newest first, for every page size: there is one listing, and the pages are it. */
  lemma PagesListTheQueue(rows: Table, queue: string, requested: nat) returns (all: seq<string>)
    requires DistinctRowids(rows) && |OfQueue(rows, queue)| <= MAX_INT
    ensures IsListing(rows, OfQueue(rows, queue), all)
    ensures forall other :: IsListing(rows, OfQueue(rows, queue), other) ==> other == all
    ensures |all| <= MAX_INT && Follow(all, requested, "", 0) == all
    ensures forall id :: multiset(all)[id] == if id in rows && rows[id].queue == queue then 1 else 0
  {
    var ids := OfQueue(rows, queue);
    all := ListingExists(rows, ids);
    PagesAreTheListing(all, requested);
    forall other | IsListing(rows, ids, other) ensures other == all {
      ListingIsUnique(rows, ids, other, all);
    }
    forall id ensures multiset(all)[id] == if id in rows && rows[id].queue == queue then 1 else 0 {
      ListedOnce(rows, ids, all, id);
    }
  }
}
