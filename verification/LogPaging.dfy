/**
 Agents' stored log lines (kuiper-forge/src/agent_logs.rs with the queries in sql.rs): keyset paging and pruning. The
 table is a sequence of rows in no particular order, and `ORDER BY` is a stable sort.
 */
module LogPaging {
  import opened Common

  const I64_MAX: int := 0x7FFF_FFFF_FFFF_FFFF

  /** Position in an agent's log; paging cursors name one. */
  datatype Key = Key(ts: int, n: int) {
    predicate OlderThan(other: Key) { ts < other.ts || (ts == other.ts && n < other.n) }
  }

  const NEWEST: Key := Key(I64_MAX, I64_MAX)

  /** `level` 1 is an error, 5 a trace. */
  datatype Row = Row(agent: string, key: Key, level: nat, message: string)

  datatype Query = Query(agent: string, level: nat, before: Option<Key>) {
    predicate Matches(r: Row) {
      r.agent == agent && r.level <= level && (before.Some? ==> r.key.OlderThan(before.value))
    }
  }

  function Select(rows: seq<Row>, q: Query): seq<Row> {
    if rows == [] then []
    else if q.Matches(rows[0]) then [rows[0]] + Select(rows[1..], q)
    else Select(rows[1..], q)
  }

  lemma {:induction false} SelectMembers(rows: seq<Row>, q: Query)
    ensures forall x :: x in Select(rows, q) <==> x in rows && q.Matches(x)
    ensures |Select(rows, q)| <= |rows|
  {
    if rows != [] {
      SelectMembers(rows[1..], q);
      assert forall x :: x in rows <==> x == rows[0] || x in rows[1..];
    }
  }

  lemma SelectCons(r: Row, rows: seq<Row>, q: Query)
    ensures Select([r] + rows, q) == if q.Matches(r) then [r] + Select(rows, q) else Select(rows, q)
  {
    assert ([r] + rows)[1..] == rows;
  }

  // ---------- newest first ----------

  function Insert(r: Row, sorted: seq<Row>): (s: seq<Row>)
    ensures multiset(s) == multiset(sorted) + multiset{r} && |s| == |sorted| + 1
  {
    if sorted == [] || !r.key.OlderThan(sorted[0].key) then [r] + sorted
    else
      assert sorted == [sorted[0]] + sorted[1..];
      [sorted[0]] + Insert(r, sorted[1..])
  }

  function Sorted(rows: seq<Row>): (s: seq<Row>)
    ensures multiset(s) == multiset(rows) && |s| == |rows|
  {
    if rows == [] then []
    else
      assert rows == [rows[0]] + rows[1..];
      Insert(rows[0], Sorted(rows[1..]))
  }

  predicate Descending(s: seq<Row>) {
    forall i, j :: 0 <= i < j < |s| ==> !s[i].key.OlderThan(s[j].key)
  }

  /** No two rows at the same key. */
  predicate Distinct(s: seq<Row>) {
    forall i, j :: 0 <= i < j < |s| ==> s[i].key != s[j].key
  }

  lemma InsertMembers(r: Row, sorted: seq<Row>)
    ensures forall x :: x in Insert(r, sorted) <==> x == r || x in sorted
  {
    forall x ensures x in Insert(r, sorted) <==> x == r || x in sorted {
      assert x in multiset(Insert(r, sorted)) <==> x in multiset(sorted) + multiset{r};
    }
  }

  lemma SortedMembers(rows: seq<Row>)
    ensures forall x :: x in Sorted(rows) <==> x in rows
  {
    forall x ensures x in Sorted(rows) <==> x in rows {
      assert x in multiset(Sorted(rows)) <==> x in multiset(rows);
    }
  }

  lemma {:induction false} InsertKeepsDescending(r: Row, sorted: seq<Row>)
    requires Descending(sorted)
    ensures Descending(Insert(r, sorted))
  {
    if sorted != [] && r.key.OlderThan(sorted[0].key) {
      InsertKeepsDescending(r, sorted[1..]);
      InsertMembers(r, sorted[1..]);
      var rest := Insert(r, sorted[1..]);
      forall j | 0 <= j < |rest| ensures !sorted[0].key.OlderThan(rest[j].key) {
        assert rest[j] in rest;
      }
    }
  }

  lemma {:induction false} SortedIsDescending(rows: seq<Row>)
    ensures Descending(Sorted(rows))
  {
    if rows != [] {
      SortedIsDescending(rows[1..]);
      InsertKeepsDescending(rows[0], Sorted(rows[1..]));
    }
  }

  lemma {:induction false} SelectInserted(r: Row, sorted: seq<Row>, q: Query)
    requires Descending(sorted)
    ensures Select(Insert(r, sorted), q) == if q.Matches(r) then Insert(r, Select(sorted, q)) else Select(sorted, q)
  {
    if sorted == [] || !r.key.OlderThan(sorted[0].key) {
      SelectCons(r, sorted, q);
      if Select(sorted, q) != [] {
        HeadIsOlderOrEqual(r, sorted, q);
      }
    } else {
      var head, rest := sorted[0], sorted[1..];
      SelectInserted(r, rest, q);
      SelectCons(head, Insert(r, rest), q);
      if q.Matches(head) {
        InsertAfter(r, head, Select(rest, q));
      }
    }
  }

  lemma HeadIsOlderOrEqual(r: Row, sorted: seq<Row>, q: Query)
    requires Descending(sorted) && sorted != [] && !r.key.OlderThan(sorted[0].key) && Select(sorted, q) != []
    ensures !r.key.OlderThan(Select(sorted, q)[0].key)
  {
    SelectMembers(sorted, q);
    var x := Select(sorted, q)[0];
    assert x in sorted;
    var i :| 0 <= i < |sorted| && sorted[i] == x;
    assert i > 0 ==> !sorted[0].key.OlderThan(x.key);
  }

  lemma InsertAfter(r: Row, head: Row, rest: seq<Row>)
    requires r.key.OlderThan(head.key)
    ensures Insert(r, [head] + rest) == [head] + Insert(r, rest)
  {
    assert ([head] + rest)[1..] == rest;
  }

  /** Selecting and sorting can be done in either order. */
  lemma {:induction false} SelectSorted(rows: seq<Row>, q: Query)
    ensures Sorted(Select(rows, q)) == Select(Sorted(rows), q)
  {
    if rows != [] {
      SelectSorted(rows[1..], q);
      SortedIsDescending(rows[1..]);
      SelectInserted(rows[0], Sorted(rows[1..]), q);
      if q.Matches(rows[0]) {
        SortedCons(rows[0], Select(rows[1..], q));
      }
    }
  }

  lemma SortedCons(r: Row, rows: seq<Row>)
    ensures Sorted([r] + rows) == Insert(r, Sorted(rows))
  {
    assert ([r] + rows)[1..] == rows;
  }

  // ---------- paging ----------

  function Take(rows: seq<Row>, n: nat): seq<Row> { if n < |rows| then rows[..n] else rows }

  /** `SELECT_AGENT_LOGS` */
  function Page(rows: seq<Row>, q: Query, limit: nat): seq<Row> { Take(Sorted(Select(rows, q)), limit) }

  /** What is asked for: lines that match, newest first, no more than the limit; and if any are left out, the limit is
      reached and none of them is newer than one shown. Which of several lines at one key come first is left open. */
  ghost predicate IsPage(page: seq<Row>, rows: seq<Row>, q: Query, limit: nat) {
    exists rest: seq<Row> ::
      && multiset(page) + multiset(rest) == multiset(Select(rows, q))
      && |page| <= limit && (rest != [] ==> |page| == limit)
      && Descending(page) && forall x, y :: x in page && y in rest ==> !x.key.OlderThan(y.key)
  }

  lemma PageIsOne(rows: seq<Row>, q: Query, limit: nat)
    ensures IsPage(Page(rows, q, limit), rows, q, limit)
  {
    var all, page := Sorted(Select(rows, q)), Page(rows, q, limit);
    SortedIsDescending(Select(rows, q));
    TakeIsNewest(all, limit);
    assert multiset(page) + multiset(all[|page|..]) == multiset(Select(rows, q));
  }

  lemma TakeIsNewest(all: seq<Row>, limit: nat)
    requires Descending(all)
    ensures var page := Take(all, limit);
            && Descending(page) && multiset(page) + multiset(all[|page|..]) == multiset(all)
            && forall x, y :: x in page && y in all[|page|..] ==> !x.key.OlderThan(y.key)
  {
    var page := Take(all, limit);
    var rest := all[|page|..];
    assert all == page + rest;
    assert forall i :: 0 <= i < |page| ==> page[i] == all[i];
    assert forall j :: 0 <= j < |rest| ==> rest[j] == all[|page| + j];
    forall x, y | x in page && y in rest ensures !x.key.OlderThan(y.key) {
      var i :| 0 <= i < |page| && page[i] == x;
      var j :| 0 <= j < |rest| && rest[j] == y;
    }
  }

  /** If keys differ, the page is determined by that, however the database sorts. */
  lemma PageIsDetermined(page: seq<Row>, rows: seq<Row>, q: Query, limit: nat)
    requires IsPage(page, rows, q, limit) && Distinct(Sorted(Select(rows, q)))
    ensures page == Page(rows, q, limit)
  {
    var all := Sorted(Select(rows, q));
    var rest: seq<Row> :|
      && multiset(page) + multiset(rest) == multiset(Select(rows, q))
      && |page| <= limit && (rest != [] ==> |page| == limit)
      && Descending(page) && forall x, y :: x in page && y in rest ==> !x.key.OlderThan(y.key);
    SortedIsDescending(Select(rows, q));
    SortedIsDescending(rest);
    SortedMembers(rest);
    JoinedIsDescending(page, Sorted(rest));
    DescendingIsUnique(all, page + Sorted(rest));
    assert |multiset(page) + multiset(rest)| == |page| + |rest|;
  }

  lemma JoinedIsDescending(a: seq<Row>, b: seq<Row>)
    requires Descending(a) && Descending(b) && forall x, y :: x in a && y in b ==> !x.key.OlderThan(y.key)
    ensures Descending(a + b)
  {
    forall i, j | 0 <= i < j < |a + b| ensures !(a + b)[i].key.OlderThan((a + b)[j].key) {
      if i < |a| <= j {
        assert a[i] in a && b[j - |a|] in b;
      }
    }
  }

  lemma {:induction false} DescendingIsUnique(a: seq<Row>, b: seq<Row>)
    requires Descending(a) && Descending(b) && Distinct(a) && multiset(a) == multiset(b)
    ensures a == b
  {
    assert |multiset(a)| == |a| && |multiset(b)| == |b|;
    if a != [] {
      SameHead(a, b);
      assert a == [a[0]] + a[1..] && b == [b[0]] + b[1..];
      assert multiset(a[1..]) == multiset(a) - multiset{a[0]} == multiset(b[1..]);
      DescendingIsUnique(a[1..], b[1..]);
    }
  }

  lemma SameHead(a: seq<Row>, b: seq<Row>)
    requires Descending(a) && Descending(b) && Distinct(a) && multiset(a) == multiset(b) && a != [] && b != []
    ensures a[0] == b[0]
  {
    assert a[0] in multiset(b) && b[0] in multiset(a);
    var i :| 0 <= i < |a| && a[i] == b[0];
    var j :| 0 <= j < |b| && b[j] == a[0];
    assert !a[0].key.OlderThan(a[i].key) && !b[0].key.OlderThan(b[j].key);
    assert a[0].key == a[i].key;
  }

  function Next(q: Query, page: seq<Row>): Query
    requires page != []
  {
    q.(before := Some(page[|page| - 1].key))
  }

  /** All pages from `q` on, each asked for with the cursor of the last line of the one before, until one is empty. */
  function Follow(rows: seq<Row>, q: Query, limit: nat): seq<Row>
    requires limit > 0
    decreases |Select(rows, q)|
  {
    var page := Page(rows, q, limit);
    if page == [] then []
    else
      FewerRemain(rows, q, limit);
      page + Follow(rows, Next(q, page), limit)
  }

  lemma PageIsSelected(rows: seq<Row>, q: Query, limit: nat)
    ensures forall x :: x in Page(rows, q, limit) ==> x in rows && q.Matches(x)
  {
    SortedMembers(Select(rows, q));
    SelectMembers(rows, q);
  }

  lemma NextMatchesLess(rows: seq<Row>, q: Query, limit: nat, x: Row)
    requires Page(rows, q, limit) != [] && Next(q, Page(rows, q, limit)).Matches(x)
    ensures q.Matches(x)
  {
    var page := Page(rows, q, limit);
    PageIsSelected(rows, q, limit);
    assert page[|page| - 1] in page;
  }

  /** A query for less selects the same from what the wider one selects. */
  lemma {:induction false} SelectTwice(rows: seq<Row>, wide: Query, narrow: Query)
    requires forall x :: narrow.Matches(x) ==> wide.Matches(x)
    ensures Select(Select(rows, wide), narrow) == Select(rows, narrow)
  {
    if rows != [] {
      SelectTwice(rows[1..], wide, narrow);
      if wide.Matches(rows[0]) {
        SelectCons(rows[0], Select(rows[1..], wide), narrow);
      }
    }
  }

  lemma {:induction false} SelectsFewer(rows: seq<Row>, q: Query, x: Row)
    requires x in rows && !q.Matches(x)
    ensures |Select(rows, q)| < |rows|
  {
    SelectMembers(rows[1..], q);
    if x != rows[0] {
      SelectsFewer(rows[1..], q, x);
    }
  }

  lemma FewerRemain(rows: seq<Row>, q: Query, limit: nat)
    requires Page(rows, q, limit) != []
    ensures |Select(rows, Next(q, Page(rows, q, limit)))| < |Select(rows, q)|
  {
    var page := Page(rows, q, limit);
    var next := Next(q, page);
    forall x | next.Matches(x) ensures q.Matches(x) {
      NextMatchesLess(rows, q, limit, x);
    }
    SelectTwice(rows, q, next);
    PageIsSelected(rows, q, limit);
    var last := page[|page| - 1];
    assert last in page;
    SelectMembers(rows, q);
    SelectsFewer(Select(rows, q), next, last);
  }

  lemma {:induction false} FollowIsSelected(rows: seq<Row>, q: Query, limit: nat)
    requires limit > 0
    ensures forall x :: x in Follow(rows, q, limit) ==> x in rows && q.Matches(x)
    decreases |Select(rows, q)|
  {
    var page := Page(rows, q, limit);
    if page != [] {
      FewerRemain(rows, q, limit);
      FollowIsSelected(rows, Next(q, page), limit);
      PageIsSelected(rows, q, limit);
      forall x | Next(q, page).Matches(x) ensures q.Matches(x) {
        NextMatchesLess(rows, q, limit, x);
      }
    }
  }

  lemma {:induction false} SelectNone(rows: seq<Row>, q: Query)
    requires forall x :: x in rows ==> !q.Matches(x)
    ensures Select(rows, q) == []
  {
    if rows != [] {
      SelectNone(rows[1..], q);
    }
  }

  lemma {:induction false} SelectAll(rows: seq<Row>, q: Query)
    requires forall x :: x in rows ==> q.Matches(x)
    ensures Select(rows, q) == rows
  {
    if rows != [] {
      SelectAll(rows[1..], q);
    }
  }

  lemma {:induction false} SelectConcat(a: seq<Row>, b: seq<Row>, q: Query)
    ensures Select(a + b, q) == Select(a, q) + Select(b, q)
  {
    if a == [] {
      assert a + b == b;
    } else {
      assert (a + b)[1..] == a[1..] + b;
      SelectConcat(a[1..], b, q);
    }
  }

  /** Of sorted lines at distinct keys, those older than the `k`th are the ones after it. */
  lemma OlderAreAfter(all: seq<Row>, q: Query, k: nat)
    requires k < |all| && Descending(all) && Distinct(all) && forall x :: x in all ==> q.Matches(x)
    ensures Select(all, q.(before := Some(all[k].key))) == all[k + 1..]
  {
    var next := q.(before := Some(all[k].key));
    var page, rest := all[..k + 1], all[k + 1..];
    assert all == page + rest;
    SelectConcat(page, rest, next);
    forall x | x in page ensures !next.Matches(x) {
      var i :| 0 <= i <= k && page[i] == x;
      assert i < k ==> !all[i].key.OlderThan(all[k].key);
    }
    SelectNone(page, next);
    forall x | x in rest ensures next.Matches(x) {
      var i :| 0 <= i < |rest| && rest[i] == x;
      assert all[k + 1 + i] == x && x in all;
      assert !all[k].key.OlderThan(x.key) && all[k].key != x.key;
    }
    SelectAll(rest, next);
  }

  /** What comes after a page is the rest of the lines, if no line shares its key with the page's last. */
  lemma RestFollows(rows: seq<Row>, q: Query, limit: nat)
    requires Page(rows, q, limit) != [] && Distinct(Sorted(Select(rows, q)))
    ensures var all := Sorted(Select(rows, q));
            var page := Page(rows, q, limit);
            all == page + Sorted(Select(rows, Next(q, page)))
  {
    NextSelected(rows, q, limit);
    SortedIsDescending(Select(rows, q));
    AllSelected(rows, q);
    RestIsOlder(Sorted(Select(rows, q)), q, limit);
  }

  lemma AllSelected(rows: seq<Row>, q: Query)
    ensures forall x :: x in Sorted(Select(rows, q)) ==> x in rows && q.Matches(x)
  {
    SortedMembers(Select(rows, q));
    SelectMembers(rows, q);
  }

  lemma RestIsOlder(all: seq<Row>, q: Query, limit: nat)
    requires Descending(all) && Distinct(all) && (forall x :: x in all ==> q.Matches(x)) && Take(all, limit) != []
    ensures all == Take(all, limit) + Select(all, Next(q, Take(all, limit)))
  {
    var n := |Take(all, limit)|;
    assert Take(all, limit)[n - 1] == all[n - 1];
    OlderAreAfter(all, q, n - 1);
    assert all == all[..n] + all[n..];
  }

  lemma NextSelected(rows: seq<Row>, q: Query, limit: nat)
    requires Page(rows, q, limit) != []
    ensures var next := Next(q, Page(rows, q, limit));
            Sorted(Select(rows, next)) == Select(Sorted(Select(rows, q)), next)
  {
    var next := Next(q, Page(rows, q, limit));
    forall x | next.Matches(x) ensures q.Matches(x) {
      NextMatchesLess(rows, q, limit, x);
    }
    SelectTwice(rows, q, next);
    SelectSorted(Select(rows, q), next);
  }

  lemma {:induction false} FollowListsAll(rows: seq<Row>, q: Query, limit: nat)
    requires limit > 0 && Distinct(Sorted(Select(rows, q)))
    ensures Follow(rows, q, limit) == Sorted(Select(rows, q))
    decreases |Select(rows, q)|
  {
    var page := Page(rows, q, limit);
    if page != [] {
      RestFollows(rows, q, limit);
      FewerRemain(rows, q, limit);
      var all := Sorted(Select(rows, q));
      var rest := Sorted(Select(rows, Next(q, page)));
      assert all == page + rest;
      assert forall i :: 0 <= i < |rest| ==> rest[i] == all[|page| + i];
      FollowListsAll(rows, Next(q, page), limit);
    }
  }

  /** Two lines at one key, and a page that ends between them, lose a line. */
  lemma FollowLosesTwins(rows: seq<Row>, q: Query, k: nat)
    requires k + 1 < |Sorted(Select(rows, q))|
    requires Sorted(Select(rows, q))[k].key == Sorted(Select(rows, q))[k + 1].key
    ensures Follow(rows, q, k + 1) != Sorted(Select(rows, q))
  {
    var all := Sorted(Select(rows, q));
    var page := Page(rows, q, k + 1);
    assert page == all[..k + 1] && page[k] == all[k];
    FewerRemain(rows, q, k + 1);
    var rest := Follow(rows, Next(q, page), k + 1);
    FollowIsSelected(rows, Next(q, page), k + 1);
    if rest != [] {
      assert rest[0] in rest;
      assert (page + rest)[k + 1] == rest[0];
      assert rest[0].key.OlderThan(all[k].key);
    }
  }

  /** The request without a cursor, which asks for what is older than the largest key there is. */
  function First(agent: string, level: nat): Query { Query(agent, level, Some(NEWEST)) }

  function Lines(rows: seq<Row>, agent: string, level: nat): seq<Row> {
    Sorted(Select(rows, Query(agent, level, None)))
  }

  predicate InRange(rows: seq<Row>) {
    forall r :: r in rows ==> r.key.ts <= I64_MAX && r.key.n <= I64_MAX
  }

  /** Following cursors lists an agent's lines exactly once and newest first, whatever the page size, exactly if no
      two of them have one key and none is at the very largest. */
  lemma PagingIsExact(rows: seq<Row>, agent: string, level: nat)
    requires InRange(rows)
    ensures (forall limit: nat :: limit > 0 ==> Follow(rows, First(agent, level), limit) == Lines(rows, agent, level))
            <==> Distinct(Lines(rows, agent, level)) && forall x :: x in Lines(rows, agent, level) ==> x.key != NEWEST
  {
    var q, lines := First(agent, level), Lines(rows, agent, level);
    SelectMembers(rows, Query(agent, level, None));
    SortedMembers(Select(rows, Query(agent, level, None)));
    if forall x :: x in lines ==> x.key != NEWEST {
      SameSelection(rows, q, Query(agent, level, None));
      if Distinct(lines) {
        forall limit: nat | limit > 0 ensures Follow(rows, q, limit) == lines {
          FollowListsAll(rows, q, limit);
        }
      } else {
        SortedIsDescending(Select(rows, q));
        var k := AdjacentTwins(lines);
        FollowLosesTwins(rows, q, k);
      }
    } else {
      var x :| x in lines && x.key == NEWEST;
      FollowIsSelected(rows, q, 1);
      assert x !in Follow(rows, q, 1);
      assert Follow(rows, q, 1) != lines;
    }
  }

  lemma {:induction false} SameSelection(rows: seq<Row>, p: Query, q: Query)
    requires forall x :: x in rows ==> (p.Matches(x) <==> q.Matches(x))
    ensures Select(rows, p) == Select(rows, q)
  {
    if rows != [] {
      SameSelection(rows[1..], p, q);
    }
  }

  lemma AdjacentTwins(s: seq<Row>) returns (k: nat)
    requires Descending(s) && !Distinct(s)
    ensures k + 1 < |s| && s[k].key == s[k + 1].key
  {
    var i, j :| 0 <= i < j < |s| && s[i].key == s[j].key;
    k := i;
    assert i + 1 < j ==> !s[i + 1].key.OlderThan(s[j].key);
    assert !s[i].key.OlderThan(s[i + 1].key);
  }

  // ---------- pruning ----------

  /** Everything of other agents, and the lines of `agent` newer than `cutoff`. */
  function DeleteUpTo(rows: seq<Row>, agent: string, cutoff: Key): seq<Row> {
    if rows == [] then []
    else if rows[0].agent == agent && !cutoff.OlderThan(rows[0].key) then DeleteUpTo(rows[1..], agent, cutoff)
    else [rows[0]] + DeleteUpTo(rows[1..], agent, cutoff)
  }

  function All(rows: seq<Row>, agent: string): seq<Row> { Sorted(OfAgent(rows, agent)) }

  function OfAgent(rows: seq<Row>, agent: string): seq<Row> {
    if rows == [] then []
    else if rows[0].agent == agent then [rows[0]] + OfAgent(rows[1..], agent)
    else OfAgent(rows[1..], agent)
  }

  /** `SELECT_AGENT_LOG_CUTOFF`, the first line past the cap, and the deletion of it and everything older. */
  function Trim(rows: seq<Row>, agent: string, cap: nat): seq<Row> {
    var all := All(rows, agent);
    if cap < |all| then DeleteUpTo(rows, agent, all[cap].key) else rows
  }

  function Newer(rows: seq<Row>, cutoff: Key): seq<Row> {
    if rows == [] then []
    else if cutoff.OlderThan(rows[0].key) then [rows[0]] + Newer(rows[1..], cutoff)
    else Newer(rows[1..], cutoff)
  }

  lemma {:induction false} DeletedOfAgent(rows: seq<Row>, agent: string, cutoff: Key)
    ensures OfAgent(DeleteUpTo(rows, agent, cutoff), agent) == Newer(OfAgent(rows, agent), cutoff)
    ensures forall other :: other != agent ==> OfAgent(DeleteUpTo(rows, agent, cutoff), other) == OfAgent(rows, other)
  {
    if rows != [] {
      var rest := DeleteUpTo(rows[1..], agent, cutoff);
      DeletedOfAgent(rows[1..], agent, cutoff);
      assert ([rows[0]] + rest)[1..] == rest;
      assert ([rows[0]] + OfAgent(rows[1..], agent))[1..] == OfAgent(rows[1..], agent);
    }
  }

  lemma {:induction false} NewerInserted(r: Row, sorted: seq<Row>, cutoff: Key)
    requires Descending(sorted)
    ensures Newer(Insert(r, sorted), cutoff)
            == if cutoff.OlderThan(r.key) then Insert(r, Newer(sorted, cutoff)) else Newer(sorted, cutoff)
  {
    if sorted == [] || !r.key.OlderThan(sorted[0].key) {
      assert ([r] + sorted)[1..] == sorted;
      NewerIsPrefix(sorted, cutoff);
    } else {
      NewerInserted(r, sorted[1..], cutoff);
      assert ([sorted[0]] + Insert(r, sorted[1..]))[1..] == Insert(r, sorted[1..]);
      if cutoff.OlderThan(r.key) {
        assert ([sorted[0]] + Newer(sorted[1..], cutoff))[1..] == Newer(sorted[1..], cutoff);
      }
    }
  }

  /** Of sorted lines, the newer ones are the first ones. */
  lemma {:induction false} NewerIsPrefix(sorted: seq<Row>, cutoff: Key)
    requires Descending(sorted)
    ensures |Newer(sorted, cutoff)| <= |sorted| && Newer(sorted, cutoff) == sorted[..|Newer(sorted, cutoff)|]
    ensures forall i :: 0 <= i < |sorted| ==> (cutoff.OlderThan(sorted[i].key) <==> i < |Newer(sorted, cutoff)|)
  {
    if sorted != [] {
      NewerIsPrefix(sorted[1..], cutoff);
      var n := |Newer(sorted[1..], cutoff)|;
      assert forall i :: 0 < i < |sorted| ==>
               sorted[i] == sorted[1..][i - 1] && !sorted[0].key.OlderThan(sorted[i].key);
      if cutoff.OlderThan(sorted[0].key) {
        assert [sorted[0]] + sorted[1..][..n] == sorted[..n + 1];
      }
    }
  }

  lemma {:induction false} NewerSorted(rows: seq<Row>, cutoff: Key)
    ensures Sorted(Newer(rows, cutoff)) == Newer(Sorted(rows), cutoff)
  {
    if rows != [] {
      NewerSorted(rows[1..], cutoff);
      SortedIsDescending(rows[1..]);
      NewerInserted(rows[0], Sorted(rows[1..]), cutoff);
      if cutoff.OlderThan(rows[0].key) {
        SortedCons(rows[0], Newer(rows[1..], cutoff));
      }
    }
  }

  /** Trimming keeps a prefix of an agent's newest lines, never more than the cap, and exactly the newest min(n, cap) if
      and only if the lines on both sides of the cap have different keys. Other agents keep theirs. */
  lemma TrimKeepsTheNewest(rows: seq<Row>, agent: string, cap: nat)
    ensures var all, kept := All(rows, agent), All(Trim(rows, agent, cap), agent);
            && |kept| <= cap && |kept| <= |all| && kept == all[..|kept|]
            && (kept == Take(all, cap) <==> cap == 0 || |all| <= cap || all[cap - 1].key != all[cap].key)
    ensures forall other :: other != agent ==> All(Trim(rows, agent, cap), other) == All(rows, other)
  {
    var all := All(rows, agent);
    SortedIsDescending(OfAgent(rows, agent));
    if cap < |all| {
      var cutoff := all[cap].key;
      DeletedOfAgent(rows, agent, cutoff);
      NewerSorted(OfAgent(rows, agent), cutoff);
      NewerIsPrefix(all, cutoff);
      assert !cutoff.OlderThan(all[cap].key);
      if cap > 0 {
        assert !all[cap - 1].key.OlderThan(all[cap].key);
      }
    }
  }

  // ---------- cursors ----------

  function Digits(n: nat): (r: string)
    ensures r != "" && forall c :: c in r ==> '0' <= c <= '9'
  {
    (if n < 10 then "" else Digits(n / 10)) + [('0' as int + n % 10) as char]
  }

  function Decimal(n: int): string { if n < 0 then "-" + Digits(-n) else Digits(n) }

  function ParseDigits(s: string): Option<nat> {
    if s == "" then Some(0)
    else
      var last := s[|s| - 1];
      match ParseDigits(s[..|s| - 1])
      case None => None
      case Some(n) => if '0' <= last <= '9' then Some(10 * n + (last as int - '0' as int)) else None
  }

  /** `parse::<i64>` */
  function ParseI64(s: string): Option<int> {
    var signed := s != "" && s[0] in {'-', '+'};
    var digits := if signed then s[1..] else s;
    if digits == "" then None
    else
      match ParseDigits(digits)
      case None => None
      case Some(n) =>
        var value: int := if signed && s[0] == '-' then 0 - n else n;
        if -I64_MAX - 1 <= value <= I64_MAX then Some(value) else None
  }

  function Cursor(k: Key): string { Decimal(k.ts) + "_" + Decimal(k.n) }

  function FindBar(s: string): (r: Option<nat>)
    ensures r.Some? ==> r.value < |s| && s[r.value] == '_' && '_' !in s[..r.value]
    ensures r.None? ==> '_' !in s
  {
    if s == "" then None
    else if s[0] == '_' then Some(0)
    else
      match FindBar(s[1..])
      case None => None
      case Some(i) => assert s[..i + 1] == [s[0]] + s[1..][..i]; Some(i + 1)
  }

  function ParseCursor(cursor: string): Option<Key> {
    match FindBar(cursor)
    case None => None
    case Some(i) =>
      match (ParseI64(cursor[..i]), ParseI64(cursor[i + 1..]))
      case (Some(ts), Some(n)) => Some(Key(ts, n))
      case _ => None
  }

  lemma {:induction false} DigitsParse(n: nat)
    ensures ParseDigits(Digits(n)) == Some(n)
  {
    var r := Digits(n);
    if n >= 10 {
      DigitsParse(n / 10);
      assert r[..|r| - 1] == Digits(n / 10);
    } else {
      assert r[..|r| - 1] == "";
    }
  }

  lemma PositiveParses(n: nat)
    requires n <= I64_MAX
    ensures ParseI64(Digits(n)) == Some(n) && '_' !in Digits(n)
  {
    DigitsParse(n);
    var s := Digits(n);
    assert s[0] in s;
  }

  lemma NegativeParses(n: nat)
    requires n <= I64_MAX + 1
    ensures ParseI64("-" + Digits(n)) == Some(0 - n) && '_' !in "-" + Digits(n)
  {
    DigitsParse(n);
    var digits := Digits(n);
    SignedParses(digits, n);
  }

  lemma SignedParses(digits: string, n: nat)
    requires digits != "" && ParseDigits(digits) == Some(n) && n <= I64_MAX + 1 && forall c :: c in digits ==> c != '_'
    ensures ParseI64("-" + digits) == Some(0 - n) && '_' !in "-" + digits
  {
    assert ("-" + digits)[1..] == digits;
  }

  lemma DecimalParses(n: int)
    requires -I64_MAX - 1 <= n <= I64_MAX
    ensures ParseI64(Decimal(n)) == Some(n) && '_' !in Decimal(n)
  {
    if n < 0 { NegativeParses(-n); } else { PositiveParses(n); }
  }

  lemma BarFound(a: string, b: string)
    requires '_' !in a
    ensures FindBar(a + "_" + b) == Some(|a|)
  {
    var s := a + "_" + b;
    assert s[|a|] == '_' && s[..|a|] == a;
    var i := FindBar(s).value;
    assert s[i] == '_';
    assert forall j :: 0 <= j < i ==> s[j] == s[..i][j] && s[j] != '_';
    assert forall j :: 0 <= j < |a| ==> s[j] == a[j] && s[j] != '_';
  }

  /** A line's cursor names its position. */
  lemma CursorRoundTrips(k: Key)
    requires -I64_MAX - 1 <= k.ts <= I64_MAX && -I64_MAX - 1 <= k.n <= I64_MAX
    ensures ParseCursor(Cursor(k)) == Some(k)
  {
    DecimalParses(k.ts);
    DecimalParses(k.n);
    BarFound(Decimal(k.ts), Decimal(k.n));
    var c, i := Cursor(k), |Decimal(k.ts)|;
    assert c[..i] == Decimal(k.ts) && c[i + 1..] == Decimal(k.n);
  }

  // ---------- the store ----------

  const WARN: nat := 2

  /** An uploaded record, its level already a number and its texts cut to size. */
  datatype LogRecord = LogRecord(ts: int, n: int, level: nat, message: string)

  /** A batch's rows, after a warning placed just before them if the agent dropped lines. */
  function BatchRows(agent: string, records: seq<LogRecord>, dropped: nat, warning: string, now: int): seq<Row> {
    (if dropped > 0 then [Row(agent, Key(if records == [] then now else records[0].ts - 1, 0), WARN, warning)] else [])
    + seq(|records|, i requires 0 <= i < |records| =>
        Row(agent, Key(records[i].ts, records[i].n), records[i].level, records[i].message))
  }

  /** The warning shows where the gap is: older than every line of its batch, and at the warning level. */
  lemma WarningIsBeforeItsBatch(agent: string, records: seq<LogRecord>, dropped: nat, warning: string, now: int)
    requires dropped > 0 && forall r :: r in records ==> r.ts >= records[0].ts
    ensures var rows := BatchRows(agent, records, dropped, warning, now);
            && |rows| == |records| + 1 && rows[0].level == WARN
            && forall i :: 0 < i < |rows| ==> rows[0].key.OlderThan(rows[i].key)
  {
    var rows := BatchRows(agent, records, dropped, warning, now);
    forall i | 0 < i < |rows| ensures rows[0].key.OlderThan(rows[i].key) {
      assert records[i - 1] in records;
    }
  }

  /** `DELETE_AGENT_LOGS_OLDER_THAN` */
  function NotBefore(rows: seq<Row>, ts: int): seq<Row> {
    if rows == [] then []
    else if rows[0].key.ts < ts then NotBefore(rows[1..], ts)
    else [rows[0]] + NotBefore(rows[1..], ts)
  }

  /** A cursor that can't be read starts over. */
  function StartOf(before: Option<string>): Key {
    match before
    case None => NEWEST
    case Some(cursor) => if ParseCursor(cursor).Some? then ParseCursor(cursor).value else NEWEST
  }

  class AgentLogStore {
    var rows: seq<Row>

    method InsertBatch(agent: string, records: seq<LogRecord>, dropped: nat, warning: string, now: int)
      modifies this`rows
      ensures rows == old(rows) + BatchRows(agent, records, dropped, warning, now)
    {
      var added: seq<Row> := [];
      if dropped > 0 {
        added := [Row(agent, Key(if records == [] then now else records[0].ts - 1, 0), WARN, warning)];
      }
      ghost var before := added;
      for i := 0 to |records|
        invariant |added| == |before| + i && added[..|before|] == before
        invariant forall k :: 0 <= k < i ==>
                    added[|before| + k]
                    == Row(agent, Key(records[k].ts, records[k].n), records[k].level, records[k].message)
      {
        added := added + [Row(agent, Key(records[i].ts, records[i].n), records[i].level, records[i].message)];
      }
      assert added == BatchRows(agent, records, dropped, warning, now);
      rows := rows + added;
    }

    method Recent(agent: string, level: nat, before: Option<string>, limit: nat) returns (page: seq<Row>)
      ensures IsPage(page, rows, Query(agent, level, Some(StartOf(before))), limit)
    {
      var key := NEWEST;
      if before.Some? {
        var parsed := ParseCursor(before.value);
        if parsed.Some? {
          key := parsed.value;
        }
      }
      var q := Query(agent, level, Some(key));
      PageIsOne(rows, q, limit);
      page := Take(Sorted(Select(rows, q)), limit);
    }

    /** Drops lines before `cutoff`, then trims every agent to the cap. */
    method PruneWithCap(cutoff: int, cap: nat) returns (removed: int)
      modifies this`rows
      ensures forall agent :: All(rows, agent) == All(Trim(NotBefore(old(rows), cutoff), agent, cap), agent)
      ensures removed == |old(rows)| - |rows|
    {
      var size := |rows|;
      rows := NotBefore(rows, cutoff);
      ghost var aged := rows;
      var agents := set r | r in rows :: r.agent;
      forall agent | agent !in agents ensures All(rows, agent) == All(Trim(aged, agent, cap), agent) {
        NoRows(rows, agent);
      }
      while agents != {}
        invariant forall agent :: agent in agents ==> OfAgent(rows, agent) == OfAgent(aged, agent)
        invariant forall agent :: agent !in agents ==> All(rows, agent) == All(Trim(aged, agent, cap), agent)
        decreases |agents|
      {
        var agent :| agent in agents;
        TrimOthers(rows, agent, cap);
        TrimSame(rows, aged, agent, cap);
        rows := Trim(rows, agent, cap);
        agents := agents - {agent};
      }
      removed := size - |rows|;
    }
  }

  lemma TrimOthers(rows: seq<Row>, agent: string, cap: nat)
    ensures forall other :: other != agent ==> OfAgent(Trim(rows, agent, cap), other) == OfAgent(rows, other)
  {
    if cap < |All(rows, agent)| {
      DeletedOfAgent(rows, agent, All(rows, agent)[cap].key);
    }
  }

  lemma TrimSame(rows: seq<Row>, aged: seq<Row>, agent: string, cap: nat)
    requires OfAgent(rows, agent) == OfAgent(aged, agent)
    ensures All(Trim(rows, agent, cap), agent) == All(Trim(aged, agent, cap), agent)
  {
    if cap < |All(rows, agent)| {
      DeletedOfAgent(rows, agent, All(rows, agent)[cap].key);
      DeletedOfAgent(aged, agent, All(rows, agent)[cap].key);
    }
  }

  lemma {:induction false} NoRows(rows: seq<Row>, agent: string)
    requires forall r :: r in rows ==> r.agent != agent
    ensures OfAgent(rows, agent) == []
  {
    if rows != [] {
      NoRows(rows[1..], agent);
    }
  }
}
