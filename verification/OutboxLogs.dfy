/** Restricting a log of event ids to one aggregate, and dropping repeats from it. */
module OutboxLogs {
  import opened Outbox

  function Select(ids: seq<EventId>, keep: set<EventId>): seq<EventId> {
    if ids == [] then [] else
      var prefix, last := ids[..|ids| - 1], ids[|ids| - 1];
      if last in keep then Select(prefix, keep) + [last] else Select(prefix, keep)
  }

  /** The log without every entry that already occurred before it. */
  function FirstSeen(ids: seq<EventId>): seq<EventId> {
    if ids == [] then [] else
      var prefix, last := ids[..|ids| - 1], ids[|ids| - 1];
      if last in prefix then FirstSeen(prefix) else FirstSeen(prefix) + [last]
  }

  function Members(rows: Table, agg: Aggregate): set<EventId> {
    set e | e in rows && rows[e].envelope.aggregate == agg
  }

  /** Distinct known ids, each aggregate's in increasing sequence. */
  ghost predicate Increasing(rows: Table, ids: seq<EventId>) {
    && (forall i | 0 <= i < |ids| :: ids[i] in rows)
    && (forall i, j | 0 <= i < j < |ids| :: Before(rows, ids[i], ids[j]))
  }

  predicate Before(rows: Table, x: EventId, e: EventId)
    requires x in rows && e in rows
  {
    x != e && (rows[x].envelope.aggregate == rows[e].envelope.aggregate ==> Earlier(rows, x, e))
  }

  lemma SelectAppends(ids: seq<EventId>, e: EventId, keep: set<EventId>)
    ensures Select(ids + [e], keep) == if e in keep then Select(ids, keep) + [e] else Select(ids, keep)
  {
    assert (ids + [e])[..|ids|] == ids;
  }

  lemma FirstSeenAppends(ids: seq<EventId>, e: EventId)
    ensures FirstSeen(ids + [e]) == if e in ids then FirstSeen(ids) else FirstSeen(ids) + [e]
  {
    assert (ids + [e])[..|ids|] == ids;
  }

  lemma {:induction false} SelectElements(ids: seq<EventId>, keep: set<EventId>)
    ensures forall e :: e in Select(ids, keep) <==> e in ids && e in keep
  {
    if ids != [] {
      SelectElements(ids[..|ids| - 1], keep);
      assert ids == ids[..|ids| - 1] + [ids[|ids| - 1]];
    }
  }

  lemma {:induction false} FirstSeenElements(ids: seq<EventId>)
    ensures forall e :: e in FirstSeen(ids) <==> e in ids
  {
    if ids != [] {
      FirstSeenElements(ids[..|ids| - 1]);
      assert ids == ids[..|ids| - 1] + [ids[|ids| - 1]];
    }
  }

  lemma {:induction false} SelectAgrees(ids: seq<EventId>, a: set<EventId>, b: set<EventId>)
    requires forall e | e in ids :: e in a <==> e in b
    ensures Select(ids, a) == Select(ids, b)
  {
    if ids != [] {
      SelectAgrees(ids[..|ids| - 1], a, b);
    }
  }

  lemma {:induction false} SelectTwice(ids: seq<EventId>, a: set<EventId>, b: set<EventId>)
    ensures Select(Select(ids, a), b) == Select(ids, a * b)
  {
    if ids != [] {
      SelectTwice(ids[..|ids| - 1], a, b);
      SelectAppends(Select(ids[..|ids| - 1], a), ids[|ids| - 1], b);
    }
  }

  lemma {:induction false} SelectIncreasing(rows: Table, ids: seq<EventId>, keep: set<EventId>)
    requires Increasing(rows, ids)
    ensures Increasing(rows, Select(ids, keep))
  {
    if ids != [] {
      var prefix, last := ids[..|ids| - 1], ids[|ids| - 1];
      SelectIncreasing(rows, prefix, keep);
      SelectElements(prefix, keep);
      forall i | 0 <= i < |Select(prefix, keep)|
        ensures Before(rows, Select(prefix, keep)[i], last)
      {
        assert Select(prefix, keep)[i] in prefix;
        var m :| 0 <= m < |prefix| && prefix[m] == Select(prefix, keep)[i];
        assert ids[m] == prefix[m];
      }
    }
  }

  /** If everything listed before `e` has been taken and `e` has not, then `e` is the next to take. */
  lemma {:induction false} NextInLine(taken: seq<EventId>, line: seq<EventId>, e: EventId)
    requires taken <= line
    requires forall i, j | 0 <= i < j < |line| :: line[i] != line[j]
    requires e in line && e !in taken
    requires forall i, j | 0 <= i < j < |line| && line[j] == e :: line[i] in taken
    ensures taken + [e] <= line
  {
    if taken == [] {
      assert line[0] == e;
    } else {
      assert line == [taken[0]] + line[1..];
      assert taken == [taken[0]] + taken[1..];
      NextInLine(taken[1..], line[1..], e);
    }
  }

  /** A name, of an event or of a token, that is not in use. */
  lemma {:induction false} UnusedName(used: set<nat>) returns (n: nat)
    ensures n !in used && forall x | x in used :: x < n
  {
    n := 0;
    if used != {} {
      var x :| x in used;
      var m := UnusedName(used - {x});
      n := if m <= x then x + 1 else m;
      assert forall y | y in used :: y == x || y in used - {x};
    }
  }
}
