/**
 * What the abstract backend answers: a WHERE selects exactly the matching
 * rows and keeps table order (so its head is the first match), and the
 * manyToMany join yields exactly the target rows some pivot row links.
 */
module StoreProperties {
  import opened Values
  import opened Adapter

  /** `WHERE column = v` keeps exactly the rows that match. */
  lemma {:induction false} WhereMembers(rows: seq<Fields>, column: string, v: Value)
    ensures forall t :: t in Where(rows, column, v) <==> t in rows && Matches(t, column, v)
    decreases |rows|
  {
    if rows != [] {
      WhereMembers(rows[1..], column, v);
      assert rows == [rows[0]] + rows[1..];
    }
  }

  /** No row matches exactly when the answer is empty. */
  lemma {:induction false} WhereEmpty(rows: seq<Fields>, column: string, v: Value)
    ensures Where(rows, column, v) == [] <==> forall i :: 0 <= i < |rows| ==> !Matches(rows[i], column, v)
    decreases |rows|
  {
    if rows != [] {
      WhereEmpty(rows[1..], column, v);
      assert forall i :: 1 <= i < |rows| ==> rows[i] == rows[1..][i - 1];
    }
  }

  /** The answer starts with the first matching row in table order. */
  lemma {:induction false} WhereFirst(rows: seq<Fields>, column: string, v: Value, j: nat)
    requires j < |rows| && Matches(rows[j], column, v)
    requires forall i :: 0 <= i < j ==> !Matches(rows[i], column, v)
    ensures Where(rows, column, v) != [] && Where(rows, column, v)[0] == rows[j]
    decreases j
  {
    if j > 0 {
      WhereFirst(rows[1..], column, v, j - 1);
    }
  }

  /** When some row matches, there is a first one. */
  lemma FirstMatch(rows: seq<Fields>, column: string, v: Value) returns (j: nat)
    requires exists i :: 0 <= i < |rows| && Matches(rows[i], column, v)
    ensures j < |rows| && Matches(rows[j], column, v)
    ensures forall i :: 0 <= i < j ==> !Matches(rows[i], column, v)
  {
    j := 0;
    while !Matches(rows[j], column, v)
      invariant j < |rows|
      invariant forall i :: 0 <= i < j ==> !Matches(rows[i], column, v)
      invariant exists i :: j <= i < |rows| && Matches(rows[i], column, v)
      decreases |rows| - j
    {
      j := j + 1;
    }
  }

  lemma {:induction false} LinksMembers(t: Fields, pivots: seq<Fields>, foreignKey: string, localKey: string, v: Value)
    ensures forall x :: x in Links(t, pivots, foreignKey, localKey, v) <==>
              x == t && exists p :: p in pivots && Linked(p, t, foreignKey, localKey, v)
    decreases |pivots|
  {
    if pivots != [] {
      LinksMembers(t, pivots[1..], foreignKey, localKey, v);
      assert pivots == [pivots[0]] + pivots[1..];
    }
  }

  /** The join yields exactly the target rows that some pivot row links to the argument. */
  lemma {:induction false} ViaMembers(targets: seq<Fields>, pivots: seq<Fields>, foreignKey: string, localKey: string, v: Value)
    ensures forall t :: t in Via(targets, pivots, foreignKey, localKey, v) <==>
              t in targets && exists p :: p in pivots && Linked(p, t, foreignKey, localKey, v)
    decreases |targets|
  {
    if targets != [] {
      LinksMembers(targets[0], pivots, foreignKey, localKey, v);
      ViaMembers(targets[1..], pivots, foreignKey, localKey, v);
      assert targets == [targets[0]] + targets[1..];
    }
  }
}
