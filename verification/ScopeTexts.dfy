/** The texts of the clauses, as the compiler writes them. */
module ScopeTexts {
  import opened Sql
  import opened UserPropertyScope

  lemma ListTexts(n: nat)
    ensures CondText(InParams(Col(City), n)) == "p.city IN (" + Placeholders(n) + ")"
    ensures CondText(InParams(Col(PropertyType), n)) == "p.property_type IN (" + Placeholders(n) + ")"
    ensures Placeholders(1) == "?" && Placeholders(n + 2) == "?," + Placeholders(n + 1)
  {
  }

  lemma StatusTexts(n: nat)
    ensures CondText(Compare(StatusTerm, Ne, Param)) == "COALESCE(ups.status, ?) != ?"
    ensures CondText(InParams(StatusTerm, n)) == "COALESCE(ups.status, ?) IN (" + Placeholders(n) + ")"
  {
    assert TermText(StatusTerm) == "COALESCE(ups.status, ?)";
  }

  // (column IS NULL OR column >= ?), and the same with <=.
  lemma BoundTexts(c: Column, op: Op)
    ensures CondText(NullOr(c, op)) == "(" + (ColumnText(c) + " IS NULL") + " OR " + (ColumnText(c) + OpText(op) + "?") + ")"
    ensures ColumnText(Price) == "p.price" && ColumnText(AreaSqm) == "p.area_sqm"
    ensures OpText(Ge) == " >= " && OpText(Le) == " <= "
  {
  }

  lemma FocusAndDocumentTexts()
    ensures CondText(Compare(Col(FocusScore), Ge, Param)) == "p.focus_score >= ?"
    ensures CondText(Compare(Col(DocumentId), Eq, Param)) == "p.document_id = ?"
  {
  }

  lemma WindowText()
    ensures CondText(FreshClause) == "p.first_seen_at > ? AND p.first_seen_at <= ?"
  {
  }

  lemma TitleText()
    ensures TermText(Coalesce(Col(Title), Empty)) == "COALESCE(p.title, '')"
  {
  }

  lemma DescriptionText()
    ensures TermText(Coalesce(Col(Description), Empty)) == "COALESCE(p.description, '')"
  {
  }

  lemma AddressText()
    ensures TermText(Coalesce(Col(Address), Empty)) == "COALESCE(p.address, '')"
  {
  }

  lemma SpacedText(t: Term, c: Column)
    ensures TermText(Spaced(t, c)) == TermText(t) + " || " + "' '" + " || " + TermText(Coalesce(Col(c), Empty))
  {
    var inner := Concat(t, Space);
    assert TermText(inner) == TermText(t) + " || " + "' '";
  }

  lemma WordText()
    ensures CondText(Like(ProfileTextTerm, true)) ==
      "LOWER(" + ("COALESCE(p.title, '')" + " || " + "' '" + " || " + "COALESCE(p.description, '')") + ")" + " NOT LIKE " + "?" + " ESCAPE '\\'"
  {
    TitleText();
    DescriptionText();
    var spaced := Spaced(Coalesce(Col(Title), Empty), Description);
    SpacedText(Coalesce(Col(Title), Empty), Description);
    LikeText(spaced, true);
    assert ProfileTextTerm == LowerOf(spaced);
    hide *;
  }

  lemma SearchText()
    ensures CondText(Like(SearchTextTerm, false)) ==
      "LOWER(" + ("COALESCE(p.title, '')" + " || " + "' '" + " || " + "COALESCE(p.description, '')" + " || " + "' '" + " || " + "COALESCE(p.address, '')") + ")"
      + " LIKE " + "?" + " ESCAPE '\\'"
  {
    TitleText();
    DescriptionText();
    AddressText();
    var spaced := Spaced(Coalesce(Col(Title), Empty), Description);
    SpacedText(Coalesce(Col(Title), Empty), Description);
    SpacedText(spaced, Address);
    LikeText(Spaced(spaced, Address), false);
    assert SearchTextTerm == LowerOf(Spaced(spaced, Address));
    hide *;
  }

  lemma LikeText(t: Term, negated: bool)
    ensures CondText(Like(LowerOf(t), negated)) == "LOWER(" + TermText(t) + ")" + (if negated then " NOT LIKE " else " LIKE ") + "?" + " ESCAPE '\\'"
  {
  }

  // ---------- Orders ----------

  lemma OrderTexts()
    ensures OrderText(By(Price, true)) == "p.price DESC" && OrderText(By(Price, false)) == "p.price ASC"
    ensures OrderText(By(FocusScore, false)) == "p.focus_score ASC"
    ensures OrderText(By(AreaSqm, true)) == "p.area_sqm DESC"
  {
  }

  lemma LongOrderTexts()
    ensures OrderText(By(PricePerSqm, true)) == "p.price_per_sqm" + " DESC"
    ensures OrderText(By(DeviationPercent, false)) == "p.deviation_percent" + " ASC"
    ensures OrderText(By(CreatedAt, true)) == "p.created_at" + " DESC"
  {
  }
}
