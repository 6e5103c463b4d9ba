/** The in-memory stand-in for a database table: a map from generated id to
    row. Ids come from an IDENTITY column, so every stored id lies in
    `[1, nextId)`; a table scan reads the rows in ascending id order. */
module Tables {
  import Paging

  predicate Distinct(keys: seq<int>) {
    forall i, j :: 0 <= i < j < |keys| ==> keys[i] != keys[j]
  }

  predicate Ascending(keys: seq<int>) {
    forall i, j :: 0 <= i < j < |keys| ==> keys[i] < keys[j]
  }

  /** Every id stored in `m` was generated before `nextId`. */
  predicate IdsBelow<T>(m: map<int, T>, nextId: int) {
    forall k :: k in m ==> 1 <= k < nextId
  }

  /** The ids of `m` in `[lo, hi)`, ascending. */
  function KeyRange<T>(m: map<int, T>, lo: int, hi: int): (keys: seq<int>)
    ensures Ascending(keys) && Distinct(keys)
    ensures forall i :: 0 <= i < |keys| ==> keys[i] in m && lo <= keys[i] < hi
    ensures forall k :: lo <= k < hi && k in m ==> k in keys
    decreases hi - lo
  {
    if hi <= lo then []
    else if lo in m then [lo] + KeyRange(m, lo + 1, hi)
    else KeyRange(m, lo + 1, hi)
  }

  /** The rows stored under `keys`, in that order. */
  function RowsOf<T>(m: map<int, T>, keys: seq<int>): (rows: seq<T>)
    requires forall i :: 0 <= i < |keys| ==> keys[i] in m
    ensures |rows| == |keys|
    ensures forall i :: 0 <= i < |keys| ==> rows[i] == m[keys[i]]
  {
    if keys == [] then [] else [m[keys[0]]] + RowsOf(m, keys[1..])
  }

  /** A full table scan: every stored row once, by ascending id. */
  function Scan<T>(m: map<int, T>, nextId: int): (rows: seq<T>)
    requires IdsBelow(m, nextId)
    ensures |rows| == |m|
  {
    ScanCoversTable(m, nextId);
    RowsOf(m, KeyRange(m, 1, nextId))
  }

  /** The scanned ids are exactly the stored ids. */
  lemma ScanCoversTable<T>(m: map<int, T>, nextId: int)
    requires IdsBelow(m, nextId)
    ensures forall k :: k in m <==> k in KeyRange(m, 1, nextId)
    ensures |KeyRange(m, 1, nextId)| == |m|
  {
    var keys := KeyRange(m, 1, nextId);
    DistinctCard(keys);
    assert m.Keys == set i | 0 <= i < |keys| :: keys[i];
  }

  /** A sequence without repetitions has as many elements as its set. */
  lemma {:induction false} DistinctCard(keys: seq<int>)
    requires Distinct(keys)
    ensures |set i | 0 <= i < |keys| :: keys[i]| == |keys|
  {
    if keys != [] {
      var rest := keys[1..];
      assert Distinct(rest) by {
        forall i, j | 0 <= i < j < |rest| ensures rest[i] != rest[j] {
          assert rest[i] == keys[i + 1] && rest[j] == keys[j + 1];
        }
      }
      DistinctCard(rest);
      var all := set i | 0 <= i < |keys| :: keys[i];
      var tail := set i | 0 <= i < |rest| :: rest[i];
      assert all == tail + {keys[0]} by {
        forall k | k in all ensures k in tail + {keys[0]} {
          var i :| 0 <= i < |keys| && keys[i] == k;
          if i > 0 { assert rest[i - 1] == k; }
        }
        forall k | k in tail ensures k in all {
          var i :| 0 <= i < |rest| && rest[i] == k;
          assert keys[i + 1] == k;
        }
        assert keys[0] in all;
      }
      assert keys[0] !in tail by {
        forall k | k in tail ensures k != keys[0] {
          var i :| 0 <= i < |rest| && rest[i] == k;
          assert rest[i] == keys[i + 1];
        }
      }
    }
  }

  /** The ids among `keys` whose row satisfies `p`. */
  ghost function MatchingKeys<T>(m: map<int, T>, keys: seq<int>, p: T -> bool): set<int>
    requires forall i :: 0 <= i < |keys| ==> keys[i] in m
  {
    set i | 0 <= i < |keys| && p(m[keys[i]]) :: keys[i]
  }

  lemma MatchingKeysCons<T>(m: map<int, T>, keys: seq<int>, p: T -> bool)
    requires forall i :: 0 <= i < |keys| ==> keys[i] in m
    requires keys != []
    ensures MatchingKeys(m, keys, p) ==
            MatchingKeys(m, keys[1..], p) + (if p(m[keys[0]]) then {keys[0]} else {})
  {
    var rest := keys[1..];
    forall k | k in MatchingKeys(m, keys, p)
      ensures k in MatchingKeys(m, rest, p) + (if p(m[keys[0]]) then {keys[0]} else {})
    {
      var i :| 0 <= i < |keys| && p(m[keys[i]]) && keys[i] == k;
      if i > 0 { assert rest[i - 1] == k; }
    }
    forall k | k in MatchingKeys(m, rest, p) ensures k in MatchingKeys(m, keys, p) {
      var i :| 0 <= i < |rest| && p(m[rest[i]]) && rest[i] == k;
      assert keys[i + 1] == k;
    }
  }

  /** Counting the selected rows of a scan counts the ids whose row matches. */
  lemma {:induction false} CountOfRows<T>(m: map<int, T>, keys: seq<int>, p: T -> bool)
    requires forall i :: 0 <= i < |keys| ==> keys[i] in m
    requires Distinct(keys)
    ensures |Paging.Select(RowsOf(m, keys), p)| == |MatchingKeys(m, keys, p)|
  {
    if keys != [] {
      var rest := keys[1..];
      assert Distinct(rest) by {
        forall i, j | 0 <= i < j < |rest| ensures rest[i] != rest[j] {
          assert rest[i] == keys[i + 1] && rest[j] == keys[j + 1];
        }
      }
      CountOfRows(m, rest, p);
      MatchingKeysCons(m, keys, p);
      var rows := RowsOf(m, keys);
      assert rows[0] == m[keys[0]];
      assert rows[1..] == RowsOf(m, rest);
      assert keys[0] !in MatchingKeys(m, rest, p) by {
        forall k | k in MatchingKeys(m, rest, p) ensures k != keys[0] {
          var i :| 0 <= i < |rest| && p(m[rest[i]]) && rest[i] == k;
          assert rest[i] == keys[i + 1];
        }
      }
    }
  }

  /** The ids of the table whose row satisfies `p`. */
  ghost function Matching<T>(m: map<int, T>, p: T -> bool): set<int> {
    set k | k in m && p(m[k])
  }

  /** Counting the selected rows of a full scan counts the matching rows of the table. */
  lemma CountOfScan<T>(m: map<int, T>, nextId: int, p: T -> bool)
    requires IdsBelow(m, nextId)
    ensures |Paging.Select(Scan(m, nextId), p)| == |Matching(m, p)|
  {
    var keys := KeyRange(m, 1, nextId);
    ScanCoversTable(m, nextId);
    CountOfRows(m, keys, p);
    assert MatchingKeys(m, keys, p) == Matching(m, p) by {
      forall k | k in Matching(m, p) ensures k in MatchingKeys(m, keys, p) {
        var i :| 0 <= i < |keys| && keys[i] == k;
      }
    }
  }

  /** Every scanned row is a stored row, and every stored row is scanned. */
  lemma ScanRows<T>(m: map<int, T>, nextId: int)
    requires IdsBelow(m, nextId)
    ensures forall i :: 0 <= i < |Scan(m, nextId)| ==> Scan(m, nextId)[i] in m.Values
    ensures forall k :: k in m ==> m[k] in Scan(m, nextId)
  {
    var keys := KeyRange(m, 1, nextId);
    ScanCoversTable(m, nextId);
    var rows := Scan(m, nextId);
    forall k | k in m ensures m[k] in rows {
      var i :| 0 <= i < |keys| && keys[i] == k;
      assert rows[i] == m[k];
    }
  }
}
