/** The SQL statements of backend/server.js, rendered from their table and
    column names so that the number of `?` placeholders in each can be
    related to the number of values bound to it. */
module Sql {

  /** The number of `?` placeholders in a statement. */
  function Placeholders(s: string): nat
  {
    if s == [] then 0 else (if s[0] == '?' then 1 else 0) + Placeholders(s[1..])
  }

  lemma {:induction false} PlaceholdersConcat(a: string, b: string)
    ensures Placeholders(a + b) == Placeholders(a) + Placeholders(b)
  {
    if a != [] {
      assert (a + b)[1..] == a[1..] + b;
      PlaceholdersConcat(a[1..], b);
    } else {
      assert a + b == b;
    }
  }

  lemma {:induction false} NoPlaceholders(s: string)
    requires '?' !in s
    ensures Placeholders(s) == 0
  {
    if s != [] {
      assert s[0] != '?';
      assert forall c :: c in s[1..] ==> c in s;
      NoPlaceholders(s[1..]);
    }
  }

  /** Table and column names: they hold no placeholder. */
  predicate Names(cols: seq<string>)
  {
    forall i :: 0 <= i < |cols| ==> '?' !in cols[i]
  }

  /** Items separated by ", ", as in a column list or a SET list. */
  function Join(items: seq<string>): string
  {
    if |items| == 0 then ""
    else if |items| == 1 then items[0]
    else Join(items[..|items| - 1]) + ", " + items[|items| - 1]
  }

  lemma {:induction false} JoinPlaceholders(items: seq<string>, k: nat)
    requires forall i :: 0 <= i < |items| ==> Placeholders(items[i]) == k
    ensures Placeholders(Join(items)) == k * |items|
  {
    var n := |items|;
    if n > 1 {
      var init := items[..n - 1];
      assert forall i :: 0 <= i < |init| ==> init[i] == items[i];
      JoinPlaceholders(init, k);
      assert Join(items) == Join(init) + ", " + items[n - 1];
      PlaceholdersConcat(Join(init), ", ");
      PlaceholdersConcat(Join(init) + ", ", items[n - 1]);
      NoPlaceholders(", ");
      MultiplyStep(k, n);
    }
  }

  lemma MultiplyStep(k: nat, n: nat)
    requires n > 0
    ensures k * (n - 1) + k == k * n
  {
  }

  /** One `column = ?` clause. */
  function Assign(col: string): string
  {
    col + " = ?"
  }

  lemma AssignPlaceholders(col: string)
    requires '?' !in col
    ensures Placeholders(Assign(col)) == 1
  {
    NoPlaceholders(col);
    PlaceholdersConcat(col, " = ?");
    assert " = ?" == " = " + "?";
    PlaceholdersConcat(" = ", "?");
    NoPlaceholders(" = ");
  }

  function Assignments(cols: seq<string>): (r: seq<string>)
    ensures |r| == |cols|
  {
    seq(|cols|, i requires 0 <= i < |cols| => Assign(cols[i]))
  }

  function Marks(n: nat): (r: seq<string>)
    ensures |r| == n
  {
    seq(n, _ => "?")
  }

  /** `INSERT INTO table (c1, ..., cn) VALUES (?, ..., ?)` */
  function Insert(table: string, cols: seq<string>): string
  {
    "INSERT INTO " + table + " (" + Join(cols) + ") VALUES (" + Join(Marks(|cols|)) + ")"
  }

  /** `UPDATE table SET c1 = ?, ..., cn = ? WHERE key = ?` */
  function Update(table: string, cols: seq<string>, key: string): string
  {
    "UPDATE " + table + " SET " + Join(Assignments(cols)) + " WHERE " + Assign(key)
  }

  /** Appending one column to a SET list appends one `, column = ?`. */
  lemma ExtendAssignments(cols: seq<string>, col: string)
    requires |cols| > 0
    ensures Join(Assignments(cols + [col])) == Join(Assignments(cols)) + (", " + Assign(col))
  {
    var sets := Assignments(cols + [col]);
    assert sets[..|cols|] == Assignments(cols);
    assert sets[|cols|] == Assign(col);
  }

  /** An UPDATE is its head, its SET list and its WHERE clause. */
  lemma UpdateParts(table: string, cols: seq<string>, key: string)
    ensures Update(table, cols, key)
         == ("UPDATE " + table + " SET ") + Join(Assignments(cols)) + (" WHERE " + Assign(key))
  {
  }

  /** `DELETE FROM table WHERE key = ?` */
  function Delete(table: string, key: string): string
  {
    "DELETE FROM " + table + " WHERE " + Assign(key)
  }

  lemma ColumnListPlaceholders(cols: seq<string>)
    requires Names(cols)
    ensures Placeholders(Join(cols)) == 0
  {
    forall i | 0 <= i < |cols| ensures Placeholders(cols[i]) == 0 {
      NoPlaceholders(cols[i]);
    }
    JoinPlaceholders(cols, 0);
  }

  lemma MarkListPlaceholders(n: nat)
    ensures Placeholders(Join(Marks(n))) == n
  {
    var marks := Marks(n);
    forall i | 0 <= i < n ensures Placeholders(marks[i]) == 1 {
      assert marks[i] == "?";
    }
    JoinPlaceholders(marks, 1);
  }

  // The keywords of the statements hold no placeholder, one lemma each:
  // checking several literals in one proof is far more costly than apart.

  lemma InsertIntoHasNoPlaceholders()
    ensures Placeholders("INSERT INTO ") == 0
  {
    NoPlaceholders("INSERT INTO ");
  }

  lemma ValuesHasNoPlaceholders()
    ensures Placeholders(") VALUES (") == 0
  {
    NoPlaceholders(") VALUES (");
  }

  lemma UpdateHasNoPlaceholders()
    ensures Placeholders("UPDATE ") == 0
  {
    NoPlaceholders("UPDATE ");
  }

  lemma SetHasNoPlaceholders()
    ensures Placeholders(" SET ") == 0
  {
    NoPlaceholders(" SET ");
  }

  lemma WhereHasNoPlaceholders()
    ensures Placeholders(" WHERE ") == 0
  {
    NoPlaceholders(" WHERE ");
  }

  lemma DeleteFromHasNoPlaceholders()
    ensures Placeholders("DELETE FROM ") == 0
  {
    NoPlaceholders("DELETE FROM ");
  }

  /** `INSERT INTO table (c1, ..., cn` holds no placeholder. */
  lemma InsertHeadPlaceholders(table: string, cols: seq<string>)
    requires '?' !in table && Names(cols)
    ensures Placeholders("INSERT INTO " + table + " (" + Join(cols)) == 0
  {
    ColumnListPlaceholders(cols);
    InsertIntoHasNoPlaceholders();
    NoPlaceholders(" (");
    NoPlaceholders(table);
    var a := "INSERT INTO " + table;
    PlaceholdersConcat("INSERT INTO ", table);
    PlaceholdersConcat(a, " (");
    PlaceholdersConcat(a + " (", Join(cols));
  }

  lemma InsertPlaceholders(table: string, cols: seq<string>)
    requires '?' !in table && Names(cols)
    ensures Placeholders(Insert(table, cols)) == |cols|
  {
    var head := "INSERT INTO " + table + " (" + Join(cols);
    var marks := Join(Marks(|cols|));
    InsertHeadPlaceholders(table, cols);
    MarkListPlaceholders(|cols|);
    ValuesHasNoPlaceholders();
    NoPlaceholders(")");
    PlaceholdersConcat(head, ") VALUES (");
    PlaceholdersConcat(head + ") VALUES (", marks);
    PlaceholdersConcat(head + ") VALUES (" + marks, ")");
    assert Insert(table, cols) == head + ") VALUES (" + marks + ")";
  }

  lemma UpdatePlaceholders(table: string, cols: seq<string>, key: string)
    requires '?' !in table && Names(cols) && '?' !in key
    ensures Placeholders(Update(table, cols, key)) == |cols| + 1
  {
    var sets := Assignments(cols);
    forall i | 0 <= i < |sets| ensures Placeholders(sets[i]) == 1 {
      AssignPlaceholders(cols[i]);
    }
    JoinPlaceholders(sets, 1);
    AssignPlaceholders(key);
    var a := "UPDATE " + table;
    var b := a + " SET ";
    var c := b + Join(sets);
    var d := c + " WHERE ";
    UpdateHasNoPlaceholders();
    SetHasNoPlaceholders();
    WhereHasNoPlaceholders();
    NoPlaceholders(table);
    PlaceholdersConcat("UPDATE ", table);
    PlaceholdersConcat(a, " SET ");
    PlaceholdersConcat(b, Join(sets));
    PlaceholdersConcat(c, " WHERE ");
    PlaceholdersConcat(d, Assign(key));
  }

  lemma DeletePlaceholders(table: string, key: string)
    requires '?' !in table && '?' !in key
    ensures Placeholders(Delete(table, key)) == 1
  {
    AssignPlaceholders(key);
    var a := "DELETE FROM " + table;
    var b := a + " WHERE ";
    DeleteFromHasNoPlaceholders();
    WhereHasNoPlaceholders();
    NoPlaceholders(table);
    PlaceholdersConcat("DELETE FROM ", table);
    PlaceholdersConcat(a, " WHERE ");
    PlaceholdersConcat(b, Assign(key));
  }
}
