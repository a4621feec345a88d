/** Loading one CSV file into the feed: rows that decode or not, maps keyed
    by id (later rows replace earlier ones), groups that append in file
    order, and lookups that report the missing id. */
module Tables {
  import opened Wrappers
  import opened Sequences
  import opened Entities

  /** A data row of a file: decoded into a record, or not decodable. */
  datatype Row<T> = Good(value: T) | Bad

  predicate AllGood<T>(rows: seq<Row<T>>) {
    forall i :: 0 <= i < |rows| ==> rows[i].Good?
  }

  /** The records of rows that all decode, in file order. */
  function Values<T>(rows: seq<Row<T>>): (vs: seq<T>)
    requires AllGood(rows)
    ensures |vs| == |rows|
    ensures forall i :: 0 <= i < |rows| ==> vs[i] == rows[i].value
  {
    if rows == [] then []
    else Values(rows[..|rows| - 1]) + [rows[|rows| - 1].value]
  }

  /** The records of one more good row end with that row's record. */
  lemma ValuesSnoc<T>(rows: seq<Row<T>>, i: nat)
    requires i < |rows| && AllGood(rows[..i]) && rows[i].Good?
    ensures AllGood(rows[..i + 1])
    ensures Values(rows[..i + 1]) == Values(rows[..i]) + [rows[i].value]
  {
    assert rows[..i + 1][..i] == rows[..i];
  }

  /** The index of the first row that does not decode, or |rows| if all do. */
  function FirstBad<T>(rows: seq<Row<T>>): (k: nat)
    ensures k <= |rows| && AllGood(rows[..k])
    ensures k < |rows| ==> rows[k].Bad?
  {
    if rows == [] || rows[0].Bad? then 0
    else
      var k := 1 + FirstBad(rows[1..]);
      assert forall i :: 1 <= i < k ==> rows[..k][i] == rows[1..][..k - 1][i - 1];
      k
  }

  /** The first bad row is the only row that is bad with every row before it good. */
  lemma {:induction false} FirstBadAt<T>(rows: seq<Row<T>>, i: nat)
    requires i <= |rows| && AllGood(rows[..i])
    requires i < |rows| ==> rows[i].Bad?
    ensures FirstBad(rows) == i
  {
    if i > 0 {
      assert rows[0] == rows[..i][0];
      assert rows[1..][..i - 1] == rows[..i][1..];
      FirstBadAt(rows[1..], i - 1);
    }
  }

  /** The records read before the first row that does not decode. */
  function Decoded<T>(rows: seq<Row<T>>): (vs: seq<T>)
    ensures |vs| == FirstBad(rows)
  {
    Values(rows[..FirstBad(rows)])
  }

  /** When every row decodes, the records read are all of them. */
  lemma DecodedAll<T>(rows: seq<Row<T>>)
    requires AllGood(rows)
    ensures Decoded(rows) == Values(rows)
  {
    FirstBadAt(rows, |rows|);
    assert rows[..|rows|] == rows;
  }

  function FirstError<T>(rows: seq<Row<T>>): LoadError
    requires FirstBad(rows) < |rows|
  {
    DecodeError(FirstBad(rows))
  }

  /** Collects every record of a file, or the error of its first bad row. */
  function CollectAll<T>(rows: seq<Row<T>>): (r: Result<seq<T>, LoadError>)
    ensures r.Success? <==> AllGood(rows)
    ensures r.Success? ==> |r.value| == |rows| && forall i :: 0 <= i < |rows| ==> r.value[i] == rows[i].value
    ensures r.Failure? ==> r.error == DecodeError(FirstBad(rows)) && !rows[FirstBad(rows)].Good?
  {
    if FirstBad(rows) < |rows| then Failure(FirstError(rows))
    else
      assert rows[..|rows|] == rows;
      Success(Values(rows))
  }

  // ---------------------------------------------------------------------
  // Keyed maps: collecting (id, record) pairs into a hash map

  /** The map of records by key; a later record replaces an earlier one. */
  function KeyedBy<T, K>(recs: seq<T>, key: T -> K): (m: map<K, T>)
    ensures forall id :: id in m ==> key(m[id]) == id
  {
    if recs == [] then map[]
    else
      var n := |recs| - 1;
      KeyedBy(recs[..n], key)[key(recs[n]) := recs[n]]
  }

  /** A key is present exactly when some record carries it, and it maps to
      the last record that does. */
  lemma {:induction false} KeyedByLastWins<T, K>(recs: seq<T>, key: T -> K, id: K)
    ensures id in KeyedBy(recs, key) <==> exists i :: 0 <= i < |recs| && key(recs[i]) == id
    ensures id in KeyedBy(recs, key) ==>
      exists i :: 0 <= i < |recs| && KeyedBy(recs, key)[id] == recs[i] &&
        forall j :: i < j < |recs| ==> key(recs[j]) != id
  {
    if recs != [] {
      var n := |recs| - 1;
      KeyedByLastWins(recs[..n], key, id);
      if key(recs[n]) != id {
        if exists i :: 0 <= i < |recs| && key(recs[i]) == id {
          var i :| 0 <= i < |recs| && key(recs[i]) == id;
          assert recs[..n][i] == recs[i];
        }
        if id in KeyedBy(recs, key) {
          var i :| 0 <= i < n && KeyedBy(recs[..n], key)[id] == recs[..n][i] &&
            forall j :: i < j < n ==> key(recs[..n][j]) != id;
          assert forall j :: i < j < |recs| ==> key(recs[j]) != id by {
            forall j | i < j < |recs|
              ensures key(recs[j]) != id
            {
              if j < n {
                assert recs[..n][j] == recs[j];
              }
            }
          }
        }
      }
    }
  }

  /** Reads a keyed file: the map of its records by key, or the error of its
      first bad row. */
  function CollectKeyed<T, K>(rows: seq<Row<T>>, key: T -> K): (r: Result<map<K, T>, LoadError>)
    ensures r.Success? <==> AllGood(rows)
    ensures r.Failure? ==> r.error == DecodeError(FirstBad(rows))
    ensures r.Success? ==> forall id :: id in r.value ==> key(r.value[id]) == id
    ensures r.Success? ==> r.value == KeyedBy(Values(rows), key)
  {
    match CollectAll(rows)
    case Failure(e) => Failure(e)
    case Success(recs) => Success(KeyedBy(recs, key))
  }

  // ---------------------------------------------------------------------
  // Grouping: appending each record to the list under its key

  /** The group under a key, or the empty group when the key is absent. */
  function GroupOf<T, K>(groups: map<K, seq<T>>, id: K): seq<T> {
    if id in groups then groups[id] else []
  }

  /** Groups after appending each record, in order, under its key. */
  function Grouped<T, K>(groups: map<K, seq<T>>, recs: seq<T>, key: T -> K): (g: map<K, seq<T>>)
    ensures g.Keys == groups.Keys + set i | 0 <= i < |recs| :: key(recs[i])
  {
    if recs == [] then groups
    else
      var n := |recs| - 1;
      var g := Grouped(groups, recs[..n], key);
      g[key(recs[n]) := GroupOf(g, key(recs[n])) + [recs[n]]]
  }

  /** Every group grows by exactly the records carrying its key, in order;
      no group is created for a key no record carries. */
  lemma {:induction false} GroupedAppends<T, K>(groups: map<K, seq<T>>, recs: seq<T>, key: T -> K, id: K)
    ensures id in Grouped(groups, recs, key) <==> id in groups || Matching(recs, key, id) != []
    ensures GroupOf(Grouped(groups, recs, key), id) == GroupOf(groups, id) + Matching(recs, key, id)
  {
    if recs == [] {
      assert GroupOf(groups, id) + [] == GroupOf(groups, id);
    } else {
      var n := |recs| - 1;
      GroupedAppends(groups, recs[..n], key, id);
      var prefix := Matching(recs[..n], key, id);
      var last := if key(recs[n]) == id then [recs[n]] else [];
      assert Matching(recs, key, id) == prefix + last;
      assert GroupOf(groups, id) + (prefix + last) == (GroupOf(groups, id) + prefix) + last;
    }
  }

  /** Grouping one more record appends it to the group under its key. */
  lemma GroupedSnoc<T, K>(groups: map<K, seq<T>>, recs: seq<T>, r: T, key: T -> K)
    ensures var g := Grouped(groups, recs, key);
      Grouped(groups, recs + [r], key) == g[key(r) := GroupOf(g, key(r)) + [r]]
  {
    assert (recs + [r])[..|recs|] == recs;
  }

  /** Appends the records of a file to their groups, row by row, stopping at
      the first row that does not decode; earlier rows stay appended. */
  method AppendGrouped<T, K>(groups: map<K, seq<T>>, rows: seq<Row<T>>, key: T -> K)
    returns (grouped: map<K, seq<T>>, status: Outcome<LoadError>)
    ensures grouped == Grouped(groups, Decoded(rows), key)
    ensures status.Pass? <==> AllGood(rows)
    ensures status.Fail? ==> status.error == DecodeError(FirstBad(rows))
  {
    grouped := groups;
    var i := 0;
    while i < |rows|
      invariant i <= |rows| && AllGood(rows[..i])
      invariant grouped == Grouped(groups, Values(rows[..i]), key)
    {
      if rows[i].Bad? {
        FirstBadAt(rows, i);
        return grouped, Fail(DecodeError(i));
      }
      var record := rows[i].value;
      var id := key(record);
      ValuesSnoc(rows, i);
      GroupedSnoc(groups, Values(rows[..i]), record, key);
      grouped := grouped[id := GroupOf(grouped, id) + [record]];
      i := i + 1;
    }
    FirstBadAt(rows, i);
    assert rows[..i] == rows;
    status := Pass;
  }

  // ---------------------------------------------------------------------
  // Lookups by id

  /** The record under an id, or a reference error naming that id. */
  function Lookup<T>(m: map<string, T>, id: string): (r: Result<T, ReferenceError>)
    ensures r.Success? <==> id in m
    ensures r.Success? ==> r.value == m[id]
    ensures r.Failure? ==> r.error.id == id
  {
    if id in m then Success(m[id]) else Failure(ReferenceError(id))
  }
}
