/**
 * The dead-letter list (action-engine/application/action-queue.service.ts): the newest `limit` dead rows of
 * every table, concatenated, sorted newest first and cut to `limit`.
 */
module DeadLetters {
  /** A row of a table as listActions returns it: its table's type, its id and its created_at. */
  datatype Dead = Dead(kind: string, id: nat, createdAt: int)

  // ---------------------------------------------------------------- newest first

  predicate NewestFirst(s: seq<Dead>) {
    forall i, j :: 0 <= i < j < |s| ==> s[i].createdAt >= s[j].createdAt
  }

  function Stamps(s: seq<Dead>): seq<int> { seq(|s|, i requires 0 <= i < |s| => s[i].createdAt) }

  /** Where a row goes in a newest-first list: behind the rows as new as itself (sort is stable). */
  function Place(s: seq<Dead>, x: Dead): (n: nat)
    ensures n <= |s|
    ensures n < |s| ==> s[n].createdAt < x.createdAt
    ensures forall i :: 0 <= i < n ==> s[i].createdAt >= x.createdAt
  {
    if s == [] || s[0].createdAt < x.createdAt then 0 else 1 + Place(s[1..], x)
  }

  function Inserted(s: seq<Dead>, x: Dead): seq<Dead> { s[..Place(s, x)] + [x] + s[Place(s, x)..] }

  function Sorted(s: seq<Dead>): seq<Dead> {
    if s == [] then [] else Inserted(Sorted(s[..|s| - 1]), s[|s| - 1])
  }

  lemma InsertedInOrder(s: seq<Dead>, x: Dead)
    requires NewestFirst(s)
    ensures NewestFirst(Inserted(s, x))
  {
    hide Place;
    var n, r := Place(s, x), Inserted(s, x);
    assert forall i :: 0 <= i < n ==> r[i] == s[i];
    assert r[n] == x;
    assert forall i :: n < i < |r| ==> r[i] == s[i - 1] && s[n].createdAt >= s[i - 1].createdAt;
  }

  lemma InsertedContents(s: seq<Dead>, x: Dead)
    ensures multiset(Inserted(s, x)) == multiset(s) + multiset{x} && |Inserted(s, x)| == |s| + 1
  {
    hide Place;
    assert s == s[..Place(s, x)] + s[Place(s, x)..];
  }

  lemma {:induction false} SortedSorts(s: seq<Dead>)
    ensures NewestFirst(Sorted(s)) && multiset(Sorted(s)) == multiset(s) && |Sorted(s)| == |s|
  {
    hide Inserted, NewestFirst;
    if s != [] {
      var front, x := Sorted(s[..|s| - 1]), s[|s| - 1];
      SortedSorts(s[..|s| - 1]);
      assert s == s[..|s| - 1] + [x];
      InsertedInOrder(front, x);
      InsertedContents(front, x);
    } else {
      assert NewestFirst([]) by { NothingIsInOrder(); }
    }
  }

  lemma NothingIsInOrder()
    ensures NewestFirst([])
  {
  }

  function Take(s: seq<Dead>, limit: nat): seq<Dead> { if limit <= |s| then s[..limit] else s }

  /** ORDER BY created_at DESC LIMIT limit: sorted, as many as there are, and none left out is newer. */
  ghost predicate IsTop(all: multiset<Dead>, limit: nat, top: seq<Dead>) {
    && NewestFirst(top)
    && |top| == (if limit <= |all| then limit else |all|)
    && multiset(top) <= all
    && forall x, y :: x in top && y in all - multiset(top) ==> x.createdAt >= y.createdAt
  }

  // ---------------------------------------------------------------- the query and the merge

  datatype Row = Row(id: nat, dead: bool, createdAt: int)

  function DeadOf(kind: string, rows: seq<Row>): seq<Dead> {
    if rows == [] then [] else
    var front := DeadOf(kind, rows[..|rows| - 1]);
    var r := rows[|rows| - 1];
    if r.dead then front + [Dead(kind, r.id, r.createdAt)] else front
  }

  datatype Table = Table(kind: string, rows: seq<Row>)

  /** All dead rows of all the tables. */
  function AllDead(tables: seq<Table>): seq<Dead> {
    if tables == [] then [] else
    AllDead(tables[..|tables| - 1]) + DeadOf(tables[|tables| - 1].kind, tables[|tables| - 1].rows)
  }

  /** The dead rows of a table and no others, each with its table's kind. */
  lemma {:induction false} DeadOfIs(kind: string, rows: seq<Row>, d: Dead)
    ensures d in DeadOf(kind, rows) <==> exists i :: 0 <= i < |rows| && rows[i].dead && d == Dead(kind, rows[i].id, rows[i].createdAt)
  {
    if rows != [] {
      var front, r := rows[..|rows| - 1], rows[|rows| - 1];
      DeadOfIs(kind, front, d);
      if i :| 0 <= i < |rows| && rows[i].dead && d == Dead(kind, rows[i].id, rows[i].createdAt) {
        assert i < |front| ==> front[i] == rows[i];
      }
      if d in DeadOf(kind, front) {
        var i :| 0 <= i < |front| && front[i].dead && d == Dead(kind, front[i].id, front[i].createdAt);
        assert rows[i] == front[i];
      }
      if d in DeadOf(kind, rows) && d !in DeadOf(kind, front) {
        assert rows[|rows| - 1].dead && d == Dead(kind, r.id, r.createdAt);
      }
    }
  }

  function DeadPlaces(rows: seq<Row>): set<int> { set i | 0 <= i < |rows| && rows[i].dead }

  /** As many as there are: no dead row is listed twice or lost. */
  lemma {:induction false} DeadOfCounts(kind: string, rows: seq<Row>)
    ensures |DeadOf(kind, rows)| == |DeadPlaces(rows)|
  {
    if rows == [] {
      assert DeadPlaces(rows) == {};
    } else {
      var front, n := rows[..|rows| - 1], |rows| - 1;
      DeadOfCounts(kind, front);
      assert DeadPlaces(rows) == DeadPlaces(front) + (if rows[n].dead then {n} else {});
    }
  }

  lemma CutDominates(t: seq<Dead>, m: nat, x: Dead, y: Dead)
    requires NewestFirst(t) && m <= |t| && x in t[..m] && y in t[m..]
    ensures x.createdAt >= y.createdAt
  {
    var i :| 0 <= i < m && t[..m][i] == x;
    var j :| 0 <= j < |t| - m && t[m..][j] == y;
    assert t[i].createdAt >= t[m + j].createdAt;
  }

  lemma CutIsTop(t: seq<Dead>, limit: nat)
    requires NewestFirst(t) && limit <= |t|
    ensures IsTop(multiset(t), limit, t[..limit])
  {
    var top, rest := t[..limit], t[limit..];
    assert t == top + rest;
    assert multiset(t) - multiset(top) == multiset(rest);
    assert |multiset(t)| == |t|;
    forall x, y | x in top && y in rest
      ensures x.createdAt >= y.createdAt
    {
      CutDominates(t, limit, x, y);
    }
  }

  lemma TakeSortedIsTop(s: seq<Dead>, limit: nat)
    ensures IsTop(multiset(s), limit, Take(Sorted(s), limit))
  {
    hide Sorted;
    SortedSorts(s);
    var t := Sorted(s);
    assert |multiset(t)| == |t|;
    if limit <= |t| {
      CutIsTop(t, limit);
    } else {
      assert multiset(t) - multiset(t) == multiset{};
    }
  }

  /** listActions(table, 'dead', undefined, limit): the query, with rows pushed one by one. */
  method ListDead(t: Table, limit: nat) returns (top: seq<Dead>)
    ensures IsTop(multiset(DeadOf(t.kind, t.rows)), limit, top)
  {
    var dead: seq<Dead> := [];
    for n := 0 to |t.rows|
      invariant dead == DeadOf(t.kind, t.rows[..n])
    {
      assert t.rows[..n + 1][..n] == t.rows[..n];
      if t.rows[n].dead {
        dead := dead + [Dead(t.kind, t.rows[n].id, t.rows[n].createdAt)];
      }
    }
    assert t.rows[..|t.rows|] == t.rows;
    TakeSortedIsTop(dead, limit);
    top := Take(Sorted(dead), limit);
  }

  // ---------------------------------------------------------------- why the cut per table loses nothing

  /** A top list leaves nothing behind, or it is full and everything left behind is no newer. */
  lemma LeftBehind(all: multiset<Dead>, limit: nat, top: seq<Dead>)
    requires IsTop(all, limit, top)
    ensures |all - multiset(top)| == |all| - |top|
    ensures |top| < limit ==> all - multiset(top) == multiset{}
  {
    assert all == multiset(top) + (all - multiset(top));
    assert |multiset(top)| == |top|;
  }

  /** At least `limit` rows are as new as y. */
  ghost predicate Beaten(rows: multiset<Dead>, limit: nat, y: Dead) {
    exists w :: IsWitness(rows, limit, y, w)
  }

  ghost predicate IsWitness(rows: multiset<Dead>, limit: nat, y: Dead, w: multiset<Dead>) {
    w <= rows && |w| == limit && forall x :: x in w ==> x.createdAt >= y.createdAt
  }

  lemma SubMultisetSize(a: multiset<Dead>, b: multiset<Dead>)
    requires a <= b
    ensures |a| <= |b|
    ensures |a| == |b| ==> a == b
  {
    assert b == a + (b - a);
  }

  /** If something in the top were older than y, the limit rows as new as y would overfill it. */
  lemma BeatenBeatsTop(rows: multiset<Dead>, limit: nat, top: seq<Dead>, x: Dead, y: Dead)
    requires IsTop(rows, limit, top) && x in top && Beaten(rows, limit, y)
    ensures x.createdAt >= y.createdAt
  {
    var w :| IsWitness(rows, limit, y, w);
    var t := multiset(top);
    if x.createdAt < y.createdAt {
      assert forall v :: v in w ==> v !in rows - t;
      assert w <= t;
      assert |t| == |top| <= limit;
      SubMultisetSize(w, t);
    }
  }

  lemma MoreRowsStillBeat(rows: multiset<Dead>, more: multiset<Dead>, limit: nat, y: Dead)
    requires Beaten(rows, limit, y) && rows <= more
    ensures Beaten(more, limit, y)
  {
    var w :| IsWitness(rows, limit, y, w);
    assert IsWitness(more, limit, y, w);
  }

  /** A row left behind by every table's cut stays behind in the cut of what was gathered. */
  lemma TopOfGathered(out: seq<Dead>, behind: multiset<Dead>, limit: nat, top: seq<Dead>)
    requires IsTop(multiset(out), limit, top)
    requires forall y :: y in behind ==> Beaten(multiset(out), limit, y)
    ensures IsTop(multiset(out) + behind, limit, top)
  {
    var rows := multiset(out);
    var all := rows + behind;
    var t := multiset(top);
    assert all - t == (rows - t) + behind;
    forall x, y | x in top && y in all - t
      ensures x.createdAt >= y.createdAt
    {
      if y in behind {
        BeatenBeatsTop(rows, limit, top, x, y);
      }
    }
    assert |all| == |rows| + |behind|;
    if y :| y in behind {
      var w :| IsWitness(rows, limit, y, w);
      SubMultisetSize(w, rows);
    } else {
      assert behind == multiset{};
    }
  }

  /** The rows a per-table cut leaves behind, over the first n tables. */
  ghost predicate Gathered(tables: seq<Table>, limit: nat, out: seq<Dead>, behind: multiset<Dead>) {
    && multiset(AllDead(tables)) == multiset(out) + behind
    && forall y :: y in behind ==> Beaten(multiset(out), limit, y)
  }

  lemma GatherOne(tables: seq<Table>, t: Table, limit: nat, out: seq<Dead>, behind: multiset<Dead>, top: seq<Dead>)
    requires Gathered(tables, limit, out, behind)
    requires IsTop(multiset(DeadOf(t.kind, t.rows)), limit, top)
    ensures Gathered(tables + [t], limit, out + top, behind + (multiset(DeadOf(t.kind, t.rows)) - multiset(top)))
  {
    var own := multiset(DeadOf(t.kind, t.rows));
    var left := own - multiset(top);
    AllDeadSnoc(tables, t);
    hide DeadOf, NewestFirst, AllDead, IsWitness;
    assert own == multiset(top) + left;
    forall y | y in behind + left
      ensures Beaten(multiset(out + top), limit, y)
    {
      if y in behind {
        MoreRowsStillBeat(multiset(out), multiset(out + top), limit, y);
      } else {
        LeftIsBeaten(own, limit, top, y);
        MoreRowsStillBeat(multiset(top), multiset(out + top), limit, y);
      }
    }
  }

  lemma AllDeadSnoc(tables: seq<Table>, t: Table)
    ensures AllDead(tables + [t]) == AllDead(tables) + DeadOf(t.kind, t.rows)
  {
    assert (tables + [t])[..|tables|] == tables;
  }

  /** What a full cut leaves behind is beaten by the cut itself. */
  lemma LeftIsBeaten(own: multiset<Dead>, limit: nat, top: seq<Dead>, y: Dead)
    requires IsTop(own, limit, top) && y in own - multiset(top)
    ensures Beaten(multiset(top), limit, y)
  {
    LeftBehind(own, limit, top);
    assert |multiset(top)| == |top|;
    assert IsWitness(multiset(top), limit, y, multiset(top));
  }

  lemma NothingGathered(limit: nat)
    ensures Gathered([], limit, [], multiset{})
  {
  }

  lemma GatheredTop(tables: seq<Table>, limit: nat, out: seq<Dead>, behind: multiset<Dead>, top: seq<Dead>)
    requires Gathered(tables, limit, out, behind) && IsTop(multiset(out), limit, top)
    ensures IsTop(multiset(AllDead(tables)), limit, top)
  {
    hide IsTop, Beaten, AllDead;
    TopOfGathered(out, behind, limit, top);
  }

  // ---------------------------------------------------------------- any two such lists look alike

  lemma ShorterTop(all: multiset<Dead>, limit: nat, top: seq<Dead>, m: nat)
    requires IsTop(all, limit, top) && m <= |top|
    ensures IsTop(all, m, top[..m])
  {
    var head, tail := top[..m], top[m..];
    CutParts(all, top, m);
    SubMultisetSize(multiset(head), all);
    assert |multiset(head)| == m;
    forall x, y | x in head && y in all - multiset(head)
      ensures x.createdAt >= y.createdAt
    {
      if y in tail {
        CutDominates(top, m, x, y);
      } else {
        assert y in all - multiset(top) && x in top;
      }
    }
  }

  lemma CutParts(all: multiset<Dead>, top: seq<Dead>, m: nat)
    requires multiset(top) <= all && m <= |top|
    ensures multiset(top[..m]) <= all
    ensures forall y :: y in all - multiset(top[..m]) ==> y in top[m..] || y in all - multiset(top)
  {
    assert top == top[..m] + top[m..];
    assert multiset(top) == multiset(top[..m]) + multiset(top[m..]);
  }

  /** The newest k + 1 rows of a top list are all as new as its row at k. */
  lemma HeadIsAsNew(top: seq<Dead>, k: nat, x: Dead)
    requires NewestFirst(top) && k < |top| && x in top[..k + 1]
    ensures x.createdAt >= top[k].createdAt
  {
    var i :| 0 <= i < k + 1 && top[..k + 1][i] == x;
  }

  lemma HeadIsWitness(all: multiset<Dead>, limit: nat, b: seq<Dead>, k: nat)
    requires IsTop(all, limit, b) && k < |b|
    ensures Beaten(all, k + 1, b[k])
  {
    var head := b[..k + 1];
    var w := multiset(head);
    assert b == head + b[k + 1..];
    assert |w| == k + 1;
    forall x: Dead | x in w
      ensures x.createdAt >= b[k].createdAt
    {
      HeadIsAsNew(b, k, x);
    }
    assert IsWitness(all, k + 1, b[k], w);
  }

  lemma NoOlderAt(all: multiset<Dead>, limit: nat, a: seq<Dead>, b: seq<Dead>, k: nat)
    requires IsTop(all, limit, a) && IsTop(all, limit, b) && k < |a|
    ensures |a| == |b| && a[k].createdAt >= b[k].createdAt
  {
    hide IsTop, Beaten;
    SameSize(all, limit, a, b);
    ShorterTop(all, limit, a, k + 1);
    HeadIsWitness(all, limit, b, k);
    assert a[..k + 1][k] == a[k];
    BeatenBeatsTop(all, k + 1, a[..k + 1], a[k], b[k]);
  }

  /** The created_at sequence of a top list is determined by the rows and the limit. */
  lemma TopStampsUnique(all: multiset<Dead>, limit: nat, a: seq<Dead>, b: seq<Dead>)
    requires IsTop(all, limit, a) && IsTop(all, limit, b)
    ensures Stamps(a) == Stamps(b)
  {
    hide IsTop;
    assert |a| == |b| by {
      SameSize(all, limit, a, b);
    }
    forall k | 0 <= k < |a|
      ensures a[k].createdAt == b[k].createdAt
    {
      NoOlderAt(all, limit, a, b, k);
      NoOlderAt(all, limit, b, a, k);
    }
  }

  lemma SameSize(all: multiset<Dead>, limit: nat, a: seq<Dead>, b: seq<Dead>)
    requires IsTop(all, limit, a) && IsTop(all, limit, b)
    ensures |a| == |b|
  {
  }

  lemma TopIsTheSortedPrefix(s: seq<Dead>, limit: nat, top: seq<Dead>)
    requires IsTop(multiset(s), limit, top)
    ensures Stamps(top) == Stamps(Take(Sorted(s), limit))
  {
    hide IsTop, Sorted, Stamps;
    TakeSortedIsTop(s, limit);
    TopStampsUnique(multiset(s), limit, top, Take(Sorted(s), limit));
  }

  /**
   * Cutting each table to `limit` before the merge loses nothing: the list holds the newest dead rows of
   * all tables together, and its dates are those of sorting everything and cutting once.
   */
  method ListDeadActions(tables: seq<Table>, limit: nat) returns (top: seq<Dead>)
    ensures IsTop(multiset(AllDead(tables)), limit, top)
    ensures Stamps(top) == Stamps(Take(Sorted(AllDead(tables)), limit))
  {
    hide IsTop, Sorted, Gathered, AllDead, DeadOf, Stamps;
    var out: seq<Dead> := [];
    ghost var behind := multiset{};
    NothingGathered(limit);
    assert tables[..0] == [];
    for n := 0 to |tables|
      invariant Gathered(tables[..n], limit, out, behind)
    {
      var rows := ListDead(tables[n], limit);
      ghost var before := out;
      for m := 0 to |rows|
        invariant out == before + rows[..m]
      {
        out := out + [rows[m]];
      }
      assert out == before + rows;
      GatherOne(tables[..n], tables[n], limit, before, behind, rows);
      assert tables[..n + 1] == tables[..n] + [tables[n]];
      behind := behind + (multiset(DeadOf(tables[n].kind, tables[n].rows)) - multiset(rows));
    }
    assert tables[..|tables|] == tables;
    TakeSortedIsTop(out, limit);
    top := Take(Sorted(out), limit);
    GatheredTop(tables, limit, out, behind, top);
    TopIsTheSortedPrefix(AllDead(tables), limit, top);
  }
}
