/** The writing flag that `analyze_dump` reports about a printed parse tree, and the report as a whole. */
module DumpReport {
  import opened Tables
  import opened Utf8
  import opened Tokens
  import opened NodeDump
  import opened DumpReader
  import opened DumpCorrectness
  import opened DumpProperties
  import opened DumpStatements

  // ---------------------------------------------------------------------------------------------
  // Writing
  // ---------------------------------------------------------------------------------------------

  predicate HasInto(v: Val) {
    match v
    case List(items) => ItemsHaveInto(items)
    case Sub(_, fields) => FieldsHaveInto(fields)
    case _ => false
  }

  predicate ItemsHaveInto(items: Items) {
    items.Item? && (HasInto(items.value) || ItemsHaveInto(items.rest))
  }

  predicate FieldsHaveInto(fields: Fields) {
    fields.Field? &&
    ((fields.name == "intoClause" && fields.value.Sub?) || HasInto(fields.value) || FieldsHaveInto(fields.rest))
  }

  predicate HasTag(v: Val, word: string) {
    match v
    case List(items) => ItemsHaveTag(items, word)
    case Sub(tag, fields) => tag == word || FieldsHaveTag(fields, word)
    case _ => false
  }

  predicate ItemsHaveTag(items: Items, word: string) {
    items.Item? && (HasTag(items.value, word) || ItemsHaveTag(items.rest, word))
  }

  predicate FieldsHaveTag(fields: Fields, word: string) {
    fields.Field? && (HasTag(fields.value, word) || FieldsHaveTag(fields.rest, word))
  }

  /** A list in which a bare name is taken for the label of an `INTO` clause. */
  predicate FeignsInto(v: Val) {
    match v
    case List(items) => ItemsFeignInto(items)
    case Sub(_, fields) => FieldsFeignInto(fields)
    case _ => false
  }

  predicate ItemsFeignInto(items: Items) {
    items.Item? &&
    (Label(items.value, items.rest, "intoClause") != [] || FeignsInto(items.value) || ItemsFeignInto(items.rest))
  }

  predicate FieldsFeignInto(fields: Fields) {
    fields.Field? && (FeignsInto(fields.value) || FieldsFeignInto(fields.rest))
  }

  /** A name or string that contains a brace and the word, or a node whose tag only starts with it. */
  predicate Feigns(v: Val, word: string) {
    match v
    case Atom(_) => false
    case Token(_) => MarksOf(v, word) > 0
    case Quoted(_) => MarksOf(v, word) > 0
    case List(items) => ItemsFeign(items, word)
    case Sub(tag, fields) => (tag != word && StartsWith(tag, word)) || FieldsFeign(fields, word)
  }

  predicate ItemsFeign(items: Items, word: string) {
    items.Item? && (Feigns(items.value, word) || ItemsFeign(items.rest, word))
  }

  predicate FieldsFeign(fields: Fields, word: string) {
    fields.Field? && (Feigns(fields.value, word) || FieldsFeign(fields.rest, word))
  }

  lemma {:induction false} IntoOpens(v: Val)
    ensures Opens(v, "intoClause") != [] <==> HasInto(v) || FeignsInto(v)
    decreases v
  {
    match v
    case List(items) => ItemsIntoOpen(items);
    case Sub(_, fields) => FieldsIntoOpen(fields);
    case _ =>
  }

  lemma {:induction false} ItemsIntoOpen(items: Items)
    ensures OpensItems(items, "intoClause") != [] <==> ItemsHaveInto(items) || ItemsFeignInto(items)
    decreases items
  {
    hide Label;
    if items.Item? {
      IntoOpens(items.value);
      ItemsIntoOpen(items.rest);
    }
  }

  lemma {:induction false} FieldsIntoOpen(fields: Fields)
    ensures OpensFields(fields, "intoClause") != [] <==> FieldsHaveInto(fields) || FieldsFeignInto(fields)
    decreases fields
  {
    if fields.Field? {
      IntoOpens(fields.value);
      FieldsIntoOpen(fields.rest);
    }
  }

  /** The search for nodes whose tag starts with `word`. */
  function Tagged(word: string): Probe<bool> {
    Probe(['{'] + word, Present, (tag: string, fields: Fields) => if StartsWith(tag, word) then [true] else [],
          (name: string, v: Val) => [])
  }

  lemma TaggedPrecise(word: string)
    requires Word(word)
    ensures Precise(Tagged(word))
  {
    var p := Tagged(word);
    forall tag, fields, tail | Valid(Sub(tag, fields)) && Separated(tail)
      ensures p.node(tag, fields) == At(p, Out(Sub(tag, fields), tail))
    {
      AfterTag(fields, tail);
      WordMatch('{', tag, FieldsOut(fields, "}" + tail), word);
    }
    forall name, v, tail | GoodField(name, v) && Separated(tail)
      ensures p.field(name, v) == At(p, FieldOut(name, v, tail))
    {
      assert FieldOut(name, v, tail)[0] == ':' != p.needle[0];
    }
  }

  lemma {:induction false} GlyphsShow(gs: seq<Glyph>, after: string, word: string)
    requires Escaped(gs) && Ends(after) && Word(word)
    ensures Found(Tagged(word), GlyphText(gs) + after) != []
            <==> Marks(gs, word) > 0 || Found(Tagged(word), after) != []
  {
    hide Found, GlyphBytes, Escaped, Ends, Word, StartsWith;
    if gs == [] {
      assert GlyphText(gs) + after == after;
    } else {
      EscapedRest(gs, 1);
      GlyphsShow(gs[1..], after, word);
      GlyphTextStep(gs, after);
      InsideWord(GlyphText(gs[1..]), after, word);
      GlyphFound(Tagged(word), word, gs[0], GlyphText(gs[1..]) + after);
    }
  }

  lemma TextShows(v: Val, tail: string, word: string)
    requires Valid(v) && NameOrString(v) && Separated(tail) && Word(word)
    ensures Found(Tagged(word), Out(v, tail)) != [] <==> MarksOf(v, word) > 0 || Found(Tagged(word), tail) != []
  {
    var p := Tagged(word);
    hide Collect, GlyphText;
    if v.Quoted? {
      QuoteOut(v.gs, tail);
      SilentWithout(p, "\"", GlyphText(v.gs) + ("\"" + tail));
      GlyphsShow(v.gs, "\"" + tail, word);
      SilentWithout(p, "\"", tail);
    } else if v.name.Some? && v.name.value != [] {
      GlyphsShow(v.name.value, tail, word);
    } else {
      SilentWithout(p, TokenText(v.name), tail);
    }
  }

  lemma {:induction false} TagShows(v: Val, tail: string, word: string)
    requires Valid(v) && Separated(tail) && Word(word)
    ensures Found(Tagged(word), Out(v, tail)) != []
            <==> HasTag(v, word) || Feigns(v, word) || Found(Tagged(word), tail) != []
    decreases v
  {
    var p := Tagged(word);
    TaggedPrecise(word);
    hide Found, Precise, Out, MarksOf, Word;
    match v
    case Atom(_) => AtomExact(p, v, tail);
    case Token(_) => TextShows(v, tail, word);
    case Quoted(_) => TextShows(v, tail, word);
    case List(items) =>
      ListExact(p, items, tail);
      TagShowsItems(items, ")" + tail, word);
    case Sub(tag, fields) =>
      NodeExact(p, tag, fields, tail);
      TagShowsFields(fields, "}" + tail, word);
  }

  lemma {:induction false} TagShowsItems(items: Items, tail: string, word: string)
    requires ValidItems(items) && Separated(tail) && Word(word)
    ensures Found(Tagged(word), ItemsOut(items, tail)) != []
            <==> ItemsHaveTag(items, word) || ItemsFeign(items, word) || Found(Tagged(word), tail) != []
    decreases items
  {
    hide Found, Out, Word, HasTag, Feigns;
    match items
    case NoItem =>
    case Item(v, rest) =>
      if rest.NoItem? {
        assert !ItemsHaveTag(rest, word) && !ItemsFeign(rest, word);
        TagShows(v, tail, word);
      } else {
        TagShowsItems(rest, tail, word);
        SilentWithout(Tagged(word), " ", ItemsOut(rest, tail));
        TagShows(v, " " + ItemsOut(rest, tail), word);
      }
  }

  lemma {:induction false} TagShowsFields(fields: Fields, tail: string, word: string)
    requires ValidFields(fields) && Separated(tail) && Word(word)
    ensures Found(Tagged(word), FieldsOut(fields, tail)) != []
            <==> FieldsHaveTag(fields, word) || FieldsFeign(fields, word) || Found(Tagged(word), tail) != []
    decreases fields
  {
    TaggedPrecise(word);
    hide Found, Precise, Out, FieldOut, Valid, Word, HasTag, Feigns;
    match fields
    case NoField =>
    case Field(name, v, rest) =>
      FieldsOutSeparated(rest, tail);
      FieldExact(Tagged(word), name, v, FieldsOut(rest, tail));
      TagShowsFields(rest, tail, word);
      TagShows(v, FieldsOut(rest, tail), word);
  }

  /** A search string is contained in a text exactly when its search finds something. */
  lemma ContainsFound<T>(p: Probe<T>, t: string)
    requires Distinctive(p.needle) && forall x :: p.entry(x) != []
    ensures Contains(t, p.needle) <==> Found(p, t) != []
  {
    hide Collect, Find, Distinctive;
    CollectNext(p.needle, p.entry, t);
  }

  lemma TagIsDistinctive(word: string)
    requires Word(word)
    ensures Distinctive(['{'] + word)
  {
    assert forall i :: 1 <= i < |word| + 1 ==> (['{'] + word)[i] == word[i - 1];
  }

  lemma TagContained(v: Val, word: string)
    requires Valid(v) && Word(word)
    ensures Contains(Print(v), ['{'] + word) <==> HasTag(v, word) || Feigns(v, word)
  {
    hide Collect, Distinctive, Contains, HasTag, Feigns, Out, Word;
    TagIsDistinctive(word);
    ContainsFound(Tagged(word), Print(v));
    TagShows(v, "", word);
    NothingFound(Tagged(word));
  }

  lemma NothingFound<T>(p: Probe<T>)
    ensures Found(p, "") == []
  {
  }

  lemma IntoContained(v: Val)
    requires Valid(v) && !v.Token?
    ensures Contains(Print(v), INTO) <==> HasInto(v) || FeignsInto(v)
  {
    var p := Opening("intoClause");
    FieldLiterals();
    assert p.needle == INTO && Distinctive(INTO);
    hide Collect, Distinctive, Contains, HasInto, FeignsInto, Out, Opens;
    ContainsFound(p, Print(v));
    OpensFound("intoClause", v, "");
    NothingFound(p);
    IntoOpens(v);
  }

  /** The tree selects into a table or holds a data-modifying node. */
  predicate IsWriting(v: Val) {
    HasInto(v) || HasTag(v, "INSERTSTMT") || HasTag(v, "UPDATESTMT") || HasTag(v, "DELETESTMT") || HasTag(v, "MERGESTMT")
  }

  /** One of its names or strings looks as if it did. */
  predicate FeignsWriting(v: Val) {
    || FeignsInto(v)
    || Feigns(v, "INSERTSTMT") || Feigns(v, "UPDATESTMT") || Feigns(v, "DELETESTMT") || Feigns(v, "MERGESTMT")
  }

  lemma TagLiterals()
    ensures Word("INSERTSTMT") && Word("UPDATESTMT") && Word("DELETESTMT") && Word("MERGESTMT")
    ensures INSERT == ['{'] + "INSERTSTMT" && UPDATE == ['{'] + "UPDATESTMT"
    ensures DELETE == ['{'] + "DELETESTMT" && MERGE == ['{'] + "MERGESTMT"
  {
  }

  /** For every tree: it is reported as writing if and only if it is, or looks like it. */
  lemma WritesAreExact(v: Val)
    requires Valid(v) && v.List?
    ensures Analyze(Print(v)).Parsed?
    ensures Analyze(Print(v)).writes <==> IsWriting(v) || FeignsWriting(v)
  {
    ListParses(v);
    TagLiterals();
    hide Valid, Print, Contains, Word, HasTag, HasInto, Feigns, FeignsInto;
    IntoContained(v);
    TagContained(v, "INSERTSTMT");
    TagContained(v, "UPDATESTMT");
    TagContained(v, "DELETESTMT");
    TagContained(v, "MERGESTMT");
  }

  // ---------------------------------------------------------------------------------------------
  // The report
  // ---------------------------------------------------------------------------------------------

  /** Nothing is missed: every range variable, common table expression and function of the tree is
      reported, in order; every statement is counted; a writing tree is reported as writing; and a tree
      with statements is reported as a select only if it is one select. */
  lemma AnalyzeMissesNothing(v: Val)
    requires Valid(v) && v.List?
    ensures var r := Analyze(Print(v));
            && r.Parsed?
            && IsSub(Fold(REPORTED, v), r.relations)
            && (Unmisled(v) ==> IsSub(Fold(RELATIONS, v), r.relations))
            && IsSub(Fold(CTES, v), r.ctes)
            && IsSub(Fold(FUNCTIONS, v), r.functions)
            && |Fold(STATEMENTS, v)| <= r.statements
            && (IsWriting(v) ==> r.writes)
            && (r.select && Fold(STATEMENTS, v) != [] ==> Fold(STATEMENTS, v) == ["SELECTSTMT"])
  {
    assert Print(v) != "";
    ReportedPrecise();
    CtesPrecise();
    FunctionsPrecise();
    StatementsPrecise();
    FoldReport(v);
    hide Precise, Valid, Out, IsSub, Collect, Fold, IsWriting, Writes, Unmisled, Named;
    PreciseFinds(REPORTED);
    PreciseFinds(CTES);
    PreciseFinds(FUNCTIONS);
    PreciseFinds(STATEMENTS);
    hide Finds;
    FindsAll(REPORTED, v);
    FindsAll(CTES, v);
    FindsAll(FUNCTIONS, v);
    FindsAll(STATEMENTS, v);
    SubLength(Fold(STATEMENTS, v), Found(STATEMENTS, Print(v)));
    WritesAreExact(v);
  }

  // ---------------------------------------------------------------------------------------------
  // A query of one string literal
  // ---------------------------------------------------------------------------------------------

  /** A string literal as the reader expects it: quotes are escaped as well. */
  function LiteralGlyphs(text: string): seq<Glyph> {
    if text == "" then []
    else
      var c := text[0];
      [Glyph(c, Delimiter(c) || c == '\\' || c == '"')] + LiteralGlyphs(text[1..])
  }

  lemma {:induction false} LiteralOk(text: string)
    ensures Valid(Quoted(LiteralGlyphs(text)))
  {
    if text != "" {
      LiteralOk(text[1..]);
      var gs, more := LiteralGlyphs(text), LiteralGlyphs(text[1..]);
      assert forall i :: 1 <= i < |gs| ==> gs[i] == more[i - 1];
    }
  }

  lemma LiteralFirst(text: string, c: char, t: string)
    requires text != "" && WordChar(c)
    ensures GlyphText(LiteralGlyphs(text)) == [c] + t <==> text[0] == c && GlyphText(LiteralGlyphs(text[1..])) == t
  {
    var gs := LiteralGlyphs(text);
    var b, more := GlyphBytes(gs[0]), GlyphText(gs[1..]);
    GlyphShape(gs[0]);
    assert gs[1..] == LiteralGlyphs(text[1..]) && GlyphText(gs) == b + more;
    assert (b + more)[0] == b[0];
    if b + more == [c] + t {
      assert b[0] == ([c] + t)[0];
      assert b == [c];
      assert (b + more)[1..] == more && ([c] + t)[1..] == t;
    }
  }

  lemma {:induction false} LiteralStarts(text: string, word: string)
    requires Word(word)
    ensures StartsWith(GlyphText(LiteralGlyphs(text)), word) <==> StartsWith(text, word)
  {
    if text != "" && word != "" {
      LiteralStarts(text[1..], word[1..]);
      var x, more := GlyphText(LiteralGlyphs(text)), GlyphText(LiteralGlyphs(text[1..]));
      LiteralFirst(text, word[0], if x == "" then "" else x[1..]);
      LiteralFirst(text, word[0], more);
      hide GlyphText, LiteralGlyphs;
      SameFirst(word[0], word[1..], more);
      SameFirst(word[0], word[1..], text[1..]);
      assert word == [word[0]] + word[1..] && text == [text[0]] + text[1..];
      if StartsWith(x, word) {
        assert x == [word[0]] + x[1..];
      }
    }
  }

  lemma {:induction false} LiteralMarks(text: string, word: string)
    requires Word(word)
    ensures Marks(LiteralGlyphs(text), word) > 0 <==> Contains(text, ['{'] + word)
  {
    if text != "" {
      LiteralMarks(text[1..], word);
      LiteralStarts(text[1..], word);
      assert LiteralGlyphs(text)[1..] == LiteralGlyphs(text[1..]);
      SameFirst('{', word, text[1..]);
      assert text == [text[0]] + text[1..];
    }
  }

  /** `SELECT 'text'` */
  function LiteralQuery(text: string): Items {
    Item(Sub("RAWSTMT", Field("stmt", Sub("SELECTSTMT", LiteralFields(text)), NoField)), NoItem)
  }

  function LiteralFields(text: string): Fields {
    Field("targetList", List(Item(Quoted(LiteralGlyphs(text)), NoItem)), NoField)
  }

  lemma LiteralWords()
    ensures Word("targetList") && Word("SELECTSTMT") && Word("RAWSTMT") && Word("stmt")
    ensures !StartsWith("SELECTSTMT", "RAWSTMT")
  {
    assert "SELECTSTMT"[0] == 'S' && "RAWSTMT"[0] == 'R';
  }

  lemma LiteralQueryOk(text: string)
    ensures ValidItems(LiteralQuery(text)) && Script(LiteralQuery(text)) && Tags(LiteralQuery(text)) == ["SELECTSTMT"]
  {
    hide LiteralGlyphs;
    LiteralOk(text);
    var fields := LiteralFields(text);
    var v := fields.value;
    LiteralWords();
    assert ValidItems(NoItem) && ValidFields(NoField) && Valid(v) && ValidFields(fields);
    hide Word;
    var select := Sub("SELECTSTMT", fields);
    assert Valid(select);
    var body := Field("stmt", select, NoField);
    assert ValidFields(body) && Valid(Sub("RAWSTMT", body));
    assert OpensItems(NoItem, "stmt") == [] && OpensFields(NoField, "stmt") == [];
    assert Label(v.items.value, NoItem, "stmt") == [] && OpensItems(v.items, "stmt") == [];
    assert Opens(v, "stmt") == [];
    assert OpensFields(fields, "stmt") == [];
    assert Opens(select, "stmt") == [];
    assert OneStatement(body) && Script(NoItem) && Tags(NoItem) == [];
  }

  lemma LiteralTags(text: string, word: string)
    requires word == "INSERTSTMT" || word == "UPDATESTMT" || word == "DELETESTMT" || word == "MERGESTMT"
    ensures !HasTag(List(LiteralQuery(text)), word)
    ensures Feigns(List(LiteralQuery(text)), word) <==> Contains(text, ['{'] + word)
  {
    TagLiterals();
    LiteralMarks(text, word);
    hide LiteralGlyphs, Marks, Contains, Word;
    var fields := LiteralFields(text);
    var select := Sub("SELECTSTMT", fields);
    var body := Field("stmt", select, NoField);
    assert word[0] != 'R' && word[0] != 'S' && "SELECTSTMT"[0] == 'S' && "RAWSTMT"[0] == 'R';
    assert !ItemsHaveTag(NoItem, word) && !FieldsHaveTag(NoField, word) && !ItemsFeign(NoItem, word) && !FieldsFeign(NoField, word);
    var items := fields.value.items;
    assert !ItemsHaveTag(items, word) && (ItemsFeign(items, word) <==> Contains(text, ['{'] + word)) by {
      assert !HasTag(items.value, word) && (Feigns(items.value, word) <==> MarksOf(items.value, word) > 0);
    }
    assert !HasTag(fields.value, word) && (Feigns(fields.value, word) <==> Contains(text, ['{'] + word));
    assert !FieldsHaveTag(fields, word) && (FieldsFeign(fields, word) <==> Contains(text, ['{'] + word));
    assert !HasTag(select, word) && (Feigns(select, word) <==> Contains(text, ['{'] + word));
    assert !FieldsHaveTag(body, word) && (FieldsFeign(body, word) <==> Contains(text, ['{'] + word));
    assert !HasTag(Sub("RAWSTMT", body), word) && (Feigns(Sub("RAWSTMT", body), word) <==> Contains(text, ['{'] + word));
  }

  lemma LiteralInto(text: string)
    ensures !HasInto(List(LiteralQuery(text))) && !FeignsInto(List(LiteralQuery(text)))
  {
    hide LiteralGlyphs;
    var fields := LiteralFields(text);
    var items := fields.value.items;
    var select := Sub("SELECTSTMT", fields);
    var body := Field("stmt", select, NoField);
    assert !ItemsHaveInto(NoItem) && !FieldsHaveInto(NoField) && !ItemsFeignInto(NoItem) && !FieldsFeignInto(NoField);
    assert !ItemsHaveInto(items) && !ItemsFeignInto(items);
    assert !HasInto(fields.value) && !FeignsInto(fields.value);
    assert !FieldsHaveInto(fields) && !FieldsFeignInto(fields);
    assert !HasInto(select) && !FeignsInto(select);
    assert !FieldsHaveInto(body) && !FieldsFeignInto(body);
    assert !HasInto(Sub("RAWSTMT", body)) && !FeignsInto(Sub("RAWSTMT", body));
  }

  /** Whatever the literal, the query is reported as one select. It never writes, but is reported as
      writing exactly when the literal contains one of the four tags. */
  lemma LiteralMisleads(text: string)
    ensures var v := List(LiteralQuery(text));
            && Valid(v)
            && Analyze(Print(v)).Parsed?
            && Analyze(Print(v)).statements == 1 && Analyze(Print(v)).select
            && !IsWriting(v)
            && (Analyze(Print(v)).writes
                <==> Contains(text, INSERT) || Contains(text, UPDATE) || Contains(text, DELETE) || Contains(text, MERGE))
  {
    hide LiteralQuery, Print, Contains, HasTag, Feigns, HasInto, FeignsInto, Tags, Script;
    var items := LiteralQuery(text);
    LiteralQueryOk(text);
    assert Valid(List(items));
    TagLiterals();
    hide Valid, ValidItems, Word;
    ScriptsAreExact(items);
    LiteralInto(text);
    LiteralTags(text, "INSERTSTMT");
    LiteralTags(text, "UPDATESTMT");
    LiteralTags(text, "DELETESTMT");
    LiteralTags(text, "MERGESTMT");
    WritesAreExact(List(items));
  }

  /** For example in `SELECT '{INSERTSTMT'`. */
  lemma FeignedSample()
    ensures var v := List(LiteralQuery("{INSERTSTMT"));
            Valid(v) && Analyze(Print(v)).Parsed? && Analyze(Print(v)).writes && !IsWriting(v)
  {
    assert Contains("{INSERTSTMT", INSERT);
    hide LiteralQuery, Print, Contains, Valid, IsWriting, Analyze;
    LiteralMisleads("{INSERTSTMT");
  }

  /** Outside of a script the number of statements can be wrong: a string in front of one is counted as a
      statement exactly when it contains `{RAWSTMT`. */
  lemma MarkMisleads(text: string, items: Items)
    requires ValidItems(items) && Script(items) && items.Item?
    ensures var v := List(Item(Quoted(LiteralGlyphs(text)), items));
            && Valid(v) && Fold(STATEMENTS, v) == Tags(items)
            && Analyze(Print(v)).Parsed?
            && (Analyze(Print(v)).statements == |Tags(items)| <==> !Contains(text, RAWSTMT))
  {
    var leaf := Quoted(LiteralGlyphs(text));
    var all := Item(leaf, items);
    LiteralOk(text);
    ScriptTags(items);
    StmtsNeedle();
    StatementLiterals();
    LiteralMarks(text, "RAWSTMT");
    assert OpensFields(items.value.fields, "stmt")[0] == items.value.fields.value.tag;
    assert Opens(items.value, "stmt") != [] && OpensItems(items, "stmt") != [] && NextItem(all, []) != [];
    hide Marks, Contains, Print, Analyze, LiteralGlyphs, ValidItems, NextItem;
    assert Unmarked(leaf, NextItem(all, [])) <==> !Contains(text, RAWSTMT);
    assert UnmarkedItems(all, []) <==> !Contains(text, RAWSTMT);
    assert FoldItems(STATEMENTS, all) == Tags(items);
    assert Valid(List(all)) by { assert Valid(leaf); ValidList(leaf, items); }
    StatementsAreExact(List(all));
  }

  lemma ValidList(v: Val, items: Items)
    requires Valid(v) && ValidItems(items)
    ensures Valid(List(Item(v, items)))
  {
  }
}
