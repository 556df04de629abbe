/** The fixed column lists of the SELECT and UPDATE statements.  They live
    in a module of their own, built from short pieces, so that facts about
    their characters are established cheaply. */
module SqlPhrases {

  /** The columns every statement returns, in table order. */
  const ColumnList := "id, name, " + "description, " + "environment, " + "status, "
    + "priority, " + "created_at, " + "updated_at"

  /** The head of the list statement, up to its WHERE clause. */
  const SelectHead := "SELECT " + ColumnList + " FROM projects "

  /** The RETURNING list of the update statements. */
  const Returning := " RETURNING " + ColumnList

  lemma ColumnListPlain()
    ensures '$' !in ColumnList
  {
    assert '$' !in "id, name, ";
    assert '$' !in "description, ";
    assert '$' !in "environment, ";
    assert '$' !in "status, ";
    assert '$' !in "priority, ";
    assert '$' !in "created_at, ";
    assert '$' !in "updated_at";
  }

  /** Neither phrase contains a `$`, and the RETURNING list starts with a space. */
  lemma PhrasesPlain()
    ensures '$' !in SelectHead && '$' !in Returning
    ensures |Returning| > 0 && Returning[0] == ' '
  {
    ColumnListPlain();
    assert '$' !in "SELECT ";
    assert '$' !in " FROM projects ";
    assert '$' !in " RETURNING ";
  }
}
