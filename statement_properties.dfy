/**
 * What the statement builders promise: placeholders and arguments match
 * one to one, and each comma list reads back as one entry per field or key,
 * in order.
 */
module StatementProperties {
  import opened Values
  import opened SqlText
  import opened Statements

  // The fixed words of the statements hold no placeholder, one lemma each so
  // that a proof only sees the words it uses.
  lemma NoHoleInCreateHead() ensures CountChar(CreateHead, '?') == 0 { CountAbsent(CreateHead, '?'); }
  lemma NoHoleInInsertHead() ensures CountChar(InsertHead, '?') == 0 { CountAbsent(InsertHead, '?'); }
  lemma NoHoleInValuesWord() ensures CountChar(ValuesWord, '?') == 0 { CountAbsent(ValuesWord, '?'); }
  lemma NoHoleInUpdateHead() ensures CountChar(UpdateHead, '?') == 0 { CountAbsent(UpdateHead, '?'); }
  lemma NoHoleInSetWord() ensures CountChar(SetWord, '?') == 0 { CountAbsent(SetWord, '?'); }
  lemma NoHoleInDeleteHead() ensures CountChar(DeleteHead, '?') == 0 { CountAbsent(DeleteHead, '?'); }
  lemma NoHoleInSelectStarHead() ensures CountChar(SelectStarHead, '?') == 0 { CountAbsent(SelectStarHead, '?'); }
  lemma NoHoleInWhereWord() ensures CountChar(WhereWord, '?') == 0 { CountAbsent(WhereWord, '?'); }
  lemma NoHoleInWhereId() ensures CountChar(WhereId, '?') == 0 { CountAbsent(WhereId, '?'); }
  lemma NoHoleInEquals() ensures CountChar(Equals, '?') == 0 { CountAbsent(Equals, '?'); }
  lemma NoHoleInOpen() ensures CountChar(Open, '?') == 0 { CountAbsent(Open, '?'); }
  lemma NoHoleInClose() ensures CountChar(Close, '?') == 0 { CountAbsent(Close, '?'); }
  lemma NoHoleInSelectWord() ensures CountChar(SelectWord, '?') == 0 { CountAbsent(SelectWord, '?'); }
  lemma NoHoleInStarFrom() ensures CountChar(StarFrom, '?') == 0 { CountAbsent(StarFrom, '?'); }
  lemma NoHoleInJoinWord() ensures CountChar(JoinWord, '?') == 0 { CountAbsent(JoinWord, '?'); }
  lemma NoHoleInOnWord() ensures CountChar(OnWord, '?') == 0 { CountAbsent(OnWord, '?'); }
  lemma NoHoleInDot() ensures CountChar(Dot, '?') == 0 { CountAbsent(Dot, '?'); }
  lemma NoHoleInDotId() ensures CountChar(DotId, '?') == 0 { CountAbsent(DotId, '?'); }
  lemma NoHoleInWhereLine() ensures CountChar(WhereLine, '?') == 0 { CountAbsent(WhereLine, '?'); }

  lemma HoleCounts()
    ensures CountChar(Hole, '?') == 1 && CountChar(AssignHole, '?') == 1
  {
    CountAppend("=", "?", '?');
    assert AssignHole == "=" + "?";
  }

  lemma {:induction false} CountInPlain(parts: seq<string>)
    requires AllPlain(parts)
    ensures CountIn(parts, '?') == 0
    decreases |parts|
  {
    if |parts| > 0 {
      CountAbsent(parts[0], '?');
      assert AllPlain(parts[1..]) by {
        forall i | 0 <= i < |parts| - 1 ensures Plain(parts[1..][i]) { assert parts[1..][i] == parts[i + 1]; }
      }
      CountInPlain(parts[1..]);
    }
  }

  lemma {:induction false} CountInPlaceholders(n: nat)
    ensures CountIn(Placeholders(n), '?') == n
  {
    if n > 0 {
      HoleCounts();
      assert Placeholders(n)[0] == Hole && Placeholders(n)[1..] == Placeholders(n - 1);
      CountInPlaceholders(n - 1);
    }
  }

  lemma {:induction false} CountInAssignments(keys: seq<string>)
    requires AllPlain(keys)
    ensures CountIn(Assignments(keys), '?') == |keys|
    decreases |keys|
  {
    if |keys| > 0 {
      HoleCounts();
      CountAppend(keys[0], AssignHole, '?');
      CountAbsent(keys[0], '?');
      assert Assignments(keys)[1..] == Assignments(keys[1..]);
      assert AllPlain(keys[1..]) by {
        forall i | 0 <= i < |keys| - 1 ensures Plain(keys[1..][i]) { assert keys[1..][i] == keys[i + 1]; }
      }
      CountInAssignments(keys[1..]);
    }
  }

  lemma ColumnDefsPlain(fields: seq<string>)
    requires AllPlain(fields)
    ensures AllPlain(ColumnDefs(fields))
  {
    assert Plain(IdColumn) && Plain(TextType);
  }

  lemma ColumnDefsNoComma(fields: seq<string>)
    requires NoComma(fields)
    ensures NoComma(ColumnDefs(fields))
  {
    assert ',' !in IdColumn && ',' !in TextType;
  }

  // ---------------------------------------------------------------- migrate

  /** `migrate` sends no argument and its text holds no placeholder. */
  lemma MigrateWellParameterised(table: string, fields: seq<string>)
    requires Plain(table) && AllPlain(fields)
    ensures WellParameterised(Migrate(table, fields))
  {
    NoHoleInCreateHead();
    NoHoleInOpen();
    NoHoleInClose();
    ColumnDefsPlain(fields);
    CountJoin(ColumnDefs(fields), '?');
    CountInPlain(ColumnDefs(fields));
    var cl := ColumnList(fields);
    CountAppend(CreateHead + table + Open + cl, Close, '?');
    CountAppend(CreateHead + table + Open, cl, '?');
    CountAppend(CreateHead + table, Open, '?');
    CountAppend(CreateHead, table, '?');
    CountAbsent(table, '?');
  }

  /**
   * The column list of `migrate` reads back as one definition per field, in
   * field order: `id` becomes the identity column, any other field a TEXT column.
   */
  lemma MigrateColumns(fields: seq<string>)
    requires |fields| > 0 && NoComma(fields)
    ensures Split(ColumnList(fields)) == ColumnDefs(fields)
    ensures |Split(ColumnList(fields))| == |fields|
    ensures forall i :: 0 <= i < |fields| ==>
              Split(ColumnList(fields))[i] == (if fields[i] == "id" then IdColumn else fields[i] + TextType)
  {
    ColumnDefsNoComma(fields);
    SplitJoin(ColumnDefs(fields));
  }

  /**
   * The table gets an identity column exactly when `id` is among its fields,
   * so a field list without `id` (a pivot table) gets none.
   */
  lemma MigrateIdColumn(fields: seq<string>)
    ensures IdColumn in ColumnDefs(fields) <==> "id" in fields
  {
    var cols := ColumnDefs(fields);
    if IdColumn in cols {
      var i :| 0 <= i < |cols| && cols[i] == IdColumn;
      assert fields[i] == "id";
    }
    if "id" in fields {
      var i :| 0 <= i < |fields| && fields[i] == "id";
      assert cols[i] == IdColumn;
    }
  }

  // ----------------------------------------------------------------- create

  lemma PlaceholdersNoComma(n: nat)
    ensures NoComma(Placeholders(n))
  {
    assert ',' !in Hole;
  }

  /** `create`: one placeholder per key, and one argument per key. */
  lemma InsertWellParameterised(table: string, rec: Record)
    requires Plain(table) && AllPlain(Keys(rec))
    ensures CountChar(Insert(table, rec).sql, '?') == |rec| == |Insert(table, rec).params|
  {
    NoHoleInInsertHead();
    NoHoleInValuesWord();
    NoHoleInOpen();
    NoHoleInClose();
    var ks := Join(Keys(rec));
    var ps := Join(Placeholders(|rec|));
    CountJoin(Keys(rec), '?');
    CountInPlain(Keys(rec));
    CountJoin(Placeholders(|rec|), '?');
    CountInPlaceholders(|rec|);
    CountAppend(InsertHead + table + Open + ks + ValuesWord + ps, Close, '?');
    CountAppend(InsertHead + table + Open + ks + ValuesWord, ps, '?');
    CountAppend(InsertHead + table + Open + ks, ValuesWord, '?');
    CountAppend(InsertHead + table + Open, ks, '?');
    CountAppend(InsertHead + table, Open, '?');
    CountAppend(InsertHead, table, '?');
    CountAbsent(table, '?');
  }

  /**
   * `create`: the column list reads back as the record's keys and the values
   * list as one `?` per key, both in key order.
   */
  lemma InsertLists(table: string, rec: Record)
    requires |rec| > 0 && NoComma(Keys(rec))
    ensures Insert(table, rec).sql
            == InsertHead + table + Open + Join(Keys(rec)) + ValuesWord + Join(Placeholders(|rec|)) + Close
    ensures Split(Join(Keys(rec))) == Keys(rec)
    ensures |Split(Join(Placeholders(|rec|)))| == |rec|
    ensures forall i :: 0 <= i < |rec| ==> Split(Join(Placeholders(|rec|)))[i] == "?"
  {
    SplitJoin(Keys(rec));
    PlaceholdersNoComma(|rec|);
    SplitJoin(Placeholders(|rec|));
  }

  // ----------------------------------------------------------------- update

  /** `update`: one placeholder per key plus one for the id, matching the arguments. */
  lemma UpdateWellParameterised(table: string, id: Value, rec: Record)
    requires Plain(table) && AllPlain(Keys(rec))
    ensures CountChar(Update(table, id, rec).sql, '?') == |rec| + 1 == |Update(table, id, rec).params|
  {
    NoHoleInUpdateHead();
    NoHoleInSetWord();
    NoHoleInWhereId();
    HoleCounts();
    var set_ := Join(Assignments(Keys(rec)));
    CountJoin(Assignments(Keys(rec)), '?');
    CountInAssignments(Keys(rec));
    CountAppend(UpdateHead + table + SetWord + set_ + WhereId, Hole, '?');
    CountAppend(UpdateHead + table + SetWord + set_, WhereId, '?');
    CountAppend(UpdateHead + table + SetWord, set_, '?');
    CountAppend(UpdateHead + table, SetWord, '?');
    CountAppend(UpdateHead, table, '?');
    CountAbsent(table, '?');
  }

  /** `update`: the SET clause reads back as one `k=?` per key, in key order. */
  lemma UpdateSetClause(table: string, id: Value, rec: Record)
    requires |rec| > 0 && NoComma(Keys(rec))
    ensures Update(table, id, rec).sql
            == UpdateHead + table + SetWord + Join(Assignments(Keys(rec))) + WhereId + Hole
    ensures |Split(Join(Assignments(Keys(rec))))| == |rec|
    ensures forall i :: 0 <= i < |rec| ==> Split(Join(Assignments(Keys(rec))))[i] == rec[i].key + "=?"
  {
    assert ',' !in AssignHole;
    assert NoComma(Assignments(Keys(rec)));
    SplitJoin(Assignments(Keys(rec)));
  }

  // ---------------------------------------------------------- delete, reads

  lemma DeleteWellParameterised(table: string, id: Value)
    requires Plain(table)
    ensures WellParameterised(Delete(table, id))
  {
    NoHoleInDeleteHead();
    NoHoleInWhereId();
    HoleCounts();
    CountAppend(DeleteHead + table + WhereId, Hole, '?');
    CountAppend(DeleteHead + table, WhereId, '?');
    CountAppend(DeleteHead, table, '?');
    CountAbsent(table, '?');
  }

  /** Every read query, `all` and `find` included, has as many placeholders as arguments. */
  lemma QueryWellParameterised(q: Query)
    requires AllPlain(q.Names())
    ensures WellParameterised(StatementOf(q))
  {
    NoHoleInSelectStarHead();
    HoleCounts();
    match q
    case SelectAll(t) =>
      assert Plain(q.Names()[0]);
      CountAppend(SelectStarHead, t, '?');
      CountAbsent(t, '?');
    case SelectWhere(t, c, v) =>
      assert Plain(q.Names()[0]) && Plain(q.Names()[1]);
      SelectWhereCount(t, c);
    case SelectVia(t, p, fk, lk, v) =>
      assert Plain(q.Names()[0]) && Plain(q.Names()[1]) && Plain(q.Names()[2]) && Plain(q.Names()[3]);
      SelectViaCount(t, p, fk, lk);
  }

  lemma SelectWhereCount(t: string, c: string)
    requires Plain(t) && Plain(c)
    ensures CountChar(SelectStarHead + t + WhereWord + c + Equals + Hole, '?') == 1
  {
    NoHoleInSelectStarHead();
    NoHoleInWhereWord();
    NoHoleInEquals();
    HoleCounts();
    CountAppend(SelectStarHead + t + WhereWord + c + Equals, Hole, '?');
    CountAppend(SelectStarHead + t + WhereWord + c, Equals, '?');
    CountAppend(SelectStarHead + t + WhereWord, c, '?');
    CountAppend(SelectStarHead + t, WhereWord, '?');
    CountAppend(SelectStarHead, t, '?');
    CountAbsent(t, '?');
    CountAbsent(c, '?');
  }

  lemma SelectViaCount(t: string, p: string, fk: string, lk: string)
    requires Plain(t) && Plain(p) && Plain(fk) && Plain(lk)
    ensures CountChar(SelectWord + t + StarFrom + t
                      + JoinWord + p + OnWord + p + Dot + fk + Equals + t + DotId
                      + WhereLine + p + Dot + lk + Equals + Hole, '?') == 1
  {
    NoHoleInWhereLine();
    NoHoleInDot();
    NoHoleInEquals();
    HoleCounts();
    var s3 := SelectWord + t + StarFrom + t + JoinWord + p + OnWord + p + Dot + fk + Equals + t + DotId;
    ViaJoinCount(t, p, fk);
    CountAppend(s3 + WhereLine + p + Dot + lk + Equals, Hole, '?');
    CountAppend(s3 + WhereLine + p + Dot + lk, Equals, '?');
    CountAppend(s3 + WhereLine + p + Dot, lk, '?');
    CountAppend(s3 + WhereLine + p, Dot, '?');
    CountAppend(s3 + WhereLine, p, '?');
    CountAppend(s3, WhereLine, '?');
    CountAbsent(p, '?');
    CountAbsent(lk, '?');
  }

  /** The SELECT, FROM and JOIN lines of the join query hold no placeholder. */
  lemma ViaJoinCount(t: string, p: string, fk: string)
    requires Plain(t) && Plain(p) && Plain(fk)
    ensures CountChar(SelectWord + t + StarFrom + t + JoinWord + p + OnWord + p
                      + Dot + fk + Equals + t + DotId, '?') == 0
  {
    NoHoleInDot();
    NoHoleInEquals();
    NoHoleInDotId();
    var s2 := SelectWord + t + StarFrom + t + JoinWord + p + OnWord + p;
    ViaFromCount(t, p);
    CountAppend(s2 + Dot + fk + Equals + t, DotId, '?');
    CountAppend(s2 + Dot + fk + Equals, t, '?');
    CountAppend(s2 + Dot + fk, Equals, '?');
    CountAppend(s2 + Dot, fk, '?');
    CountAppend(s2, Dot, '?');
    CountAbsent(t, '?');
    CountAbsent(fk, '?');
  }

  lemma ViaFromCount(t: string, p: string)
    requires Plain(t) && Plain(p)
    ensures CountChar(SelectWord + t + StarFrom + t + JoinWord + p + OnWord + p, '?') == 0
  {
    NoHoleInSelectWord();
    NoHoleInStarFrom();
    NoHoleInJoinWord();
    NoHoleInOnWord();
    var s1 := SelectWord + t + StarFrom + t;
    CountAppend(s1 + JoinWord + p + OnWord, p, '?');
    CountAppend(s1 + JoinWord + p, OnWord, '?');
    CountAppend(s1 + JoinWord, p, '?');
    CountAppend(s1, JoinWord, '?');
    CountAppend(SelectWord + t + StarFrom, t, '?');
    CountAppend(SelectWord + t, StarFrom, '?');
    CountAppend(SelectWord, t, '?');
    CountAbsent(t, '?');
    CountAbsent(p, '?');
  }
}
