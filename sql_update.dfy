// The dynamic UPDATE statement that server/routes/users-pg.js and
// server/routes/transcriptions-pg.js build the same way: one "column = $k" per
// provided field, pushed with its value while a placeholder counter runs from 1,
// and the row id bound to the placeholder after the last.

module SqlUpdate {
  import opened StrUtil

  /** A value bound to a placeholder. */
  datatype Param = Text(s: string) | Flag(b: bool) | Null

  /** `${column} = $${k}`. */
  function Assignment(column: string, k: nat): string
  {
    column + " = $" + NatToString(k)
  }

  /** The assignments for `columns`, numbered from `first` on. */
  function Assignments(columns: seq<string>, first: nat): (r: seq<string>)
    ensures |r| == |columns|
    decreases |columns|
  {
    if columns == [] then []
    else Assignments(columns[..|columns| - 1], first)
         + [Assignment(columns[|columns| - 1], first + |columns| - 1)]
  }

  /** The number a placeholder "$k" at the end of an assignment stands for: the digits
      after its last '$'. */
  function Placeholder(a: string): Option<nat>
  {
    match LastIndexOf(a, '$')
    case None => None
    case Some(i) =>
      var t := a[i + 1..];
      if t != [] && AllDigits(t) then Some(DigitsValue(t)) else None
  }

  /** An assignment's placeholder reads back as the number it was built with. */
  lemma PlaceholderOfAssignment(column: string, k: nat)
    requires '$' !in column
    ensures Placeholder(Assignment(column, k)) == Some(k)
  {
    var d := NatToString(k);
    var a := Assignment(column, k);
    var i := |column| + 3;
    assert a == column + " = $" + d;
    assert a[i] == '$';
    forall j | i < j < |a| ensures a[j] != '$' {
      assert a[j] == d[j - i - 1];
      assert IsDigit(d[j - i - 1]);
    }
    LastIndexOfIs(a, i, '$');
    assert a[i + 1..] == d;
    DigitsValueOfNat(k);
  }

  /** The i-th assignment (from 0) holds the placeholder first + i. */
  lemma {:induction false} AssignmentsNumbered(columns: seq<string>, first: nat, i: nat)
    requires i < |columns|
    ensures Assignments(columns, first)[i] == Assignment(columns[i], first + i)
    decreases |columns|
  {
    if i < |columns| - 1 {
      AssignmentsNumbered(columns[..|columns| - 1], first, i);
    }
  }

  /** Numbered from 1, the placeholders are 1, 2, ... in the order of the columns. */
  lemma PlaceholdersConsecutive(columns: seq<string>, i: nat)
    requires i < |columns| && '$' !in columns[i]
    ensures Placeholder(Assignments(columns, 1)[i]) == Some(i + 1)
  {
    AssignmentsNumbered(columns, 1, i);
    PlaceholderOfAssignment(columns[i], i + 1);
  }

  /** The statement for `columns` numbered from 1, the row id bound to `$idIndex`. */
  function UpdateSql(table: string, columns: seq<string>, idIndex: nat): string
  {
    "UPDATE " + table + " SET " + Join(Assignments(columns, 1), ", ") + " WHERE id = $" + NatToString(idIndex)
  }

  /** The updates, values and counter of one handler's builder. */
  class UpdateBuilder {
    var updates: seq<string>
    var values: seq<Param>
    var paramIndex: nat
    ghost var columns: seq<string>

    /** The counter is one past the last placeholder used, each update has its value,
        and the updates are the columns numbered from 1. */
    ghost predicate Valid()
      reads this
    {
      paramIndex == |updates| + 1 && |values| == |updates|
      && |columns| == |updates| && updates == Assignments(columns, 1)
    }

    constructor ()
      ensures Valid() && columns == [] && values == []
    {
      updates := [];
      values := [];
      paramIndex := 1;
      columns := [];
    }

    /** `updates.push(`${column} = $${paramIndex++}`); values.push(v)`. */
    method Push(column: string, v: Param)
      requires Valid()
      modifies this
      ensures Valid()
      ensures columns == old(columns) + [column] && values == old(values) + [v]
      ensures paramIndex == old(paramIndex) + 1
    {
      updates := updates + [Assignment(column, paramIndex)];
      values := values + [v];
      columns := columns + [column];
      paramIndex := paramIndex + 1;
    }

    /** `if (updates.length === 0)` answers 400 (None here); otherwise the id is pushed
        last and the statement is `UPDATE ${table} SET ${updates.join(', ')} WHERE id =
        $${paramIndex}`: the id's placeholder is the number of values, so every
        placeholder has exactly one value and the id is bound to the last. */
    method Statement(table: string, id: string) returns (sql: Option<string>, params: seq<Param>)
      requires Valid()
      ensures sql.None? <==> columns == []
      ensures sql.Some? ==> params == values + [Text(id)] && |params| == |columns| + 1
      ensures sql.Some? ==> sql.value == UpdateSql(table, columns, |params|)
    {
      if updates == [] {
        return None, [];
      }
      params := values + [Text(id)];
      sql := Some("UPDATE " + table + " SET " + Join(updates, ", ") + " WHERE id = $" + NatToString(paramIndex));
    }
  }
}
