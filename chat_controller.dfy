/**
 * The unified chat endpoint: splitting a model reply into its explanation
 * and its SQL, normalising generated SQL into clean single-line statements,
 * and the per-message pipeline that validates the request, builds the model
 * request, and persists the exchange and any schema or query it produced.
 */
module ChatController {
  import opened Wrappers
  import opened Text
  import opened ChatStore
  import opened PromptBuilder
  import opened Json

  // ---------------------------------------------------------------------------
  // parseAiResponse
  // ---------------------------------------------------------------------------

  /** What `parseAiResponse` returns: the explanation, the SQL after the
      marker (`null` without a marker) and whether there was a marker. */
  datatype ParsedReply = ParsedReply(text: string, sql: Option<string>, hasSql: bool)

  /** Splits a reply at its first "SQL:"; `None` stands for `null` on a
      blank reply. */
  function ParseAiResponse(aiResponse: string): (r: Option<ParsedReply>)
    ensures r.None? <==> IsBlank(aiResponse)
    ensures r.Some? ==> (r.value.hasSql <==> Contains(aiResponse, SqlMarker()))
    ensures r.Some? ==> (r.value.sql.Some? <==> r.value.hasSql)
    ensures r.Some? && !r.value.hasSql ==> r.value.text == Trim(aiResponse)
  {
    TrimEmptyIffBlank(aiResponse);
    if Trim(aiResponse) == [] then None
    else
      var i := IndexOf(aiResponse, SqlMarker());
      if i == -1 then Some(ParsedReply(Trim(aiResponse), None, false))
      else Some(ParsedReply(Trim(aiResponse[..i]), Some(Trim(aiResponse[i + 4..])), true))
  }

  /** No occurrence of "SQL:" can straddle the start of another one: the
      marker's first letter does not occur again in it. */
  lemma MarkerStartsOnce(s: string, p: nat, k: nat)
    requires OccursAt(s, SqlMarker(), p) && k < p < k + 4
    ensures !OccursAt(s, SqlMarker(), k)
  {
    assert s[p] == s[p..p + 4][0] == 'S';
  }

  /** Any split of a reply into a marker-free prefix, the marker and a rest
      is the split `parseAiResponse` makes: the explanation is the trimmed
      prefix and the SQL the trimmed rest. */
  lemma ParseSplitsAtFirstMarker(aiResponse: string, pre: string, post: string)
    requires aiResponse == pre + SqlMarker() + post
    requires !Contains(pre, SqlMarker())
    ensures ParseAiResponse(aiResponse) == Some(ParsedReply(Trim(pre), Some(Trim(post)), true))
  {
    var s := aiResponse;
    var p := |pre|;
    assert s[p..p + 4] == SqlMarker();
    forall k | 0 <= k < p ensures !OccursAt(s, SqlMarker(), k) {
      if k + 4 <= p {
        if OccursAt(s, SqlMarker(), k) {
          assert pre[k..k + 4] == s[k..k + 4];
          OccurrenceContains(pre, SqlMarker(), k);
        }
      } else {
        MarkerStartsOnce(s, p, k);
      }
    }
    IndexOfFirst(s, SqlMarker(), p);
    assert !IsBlank(s) by { assert s[p] == 'S'; }
    TrimEmptyIffBlank(s);
    assert s[..p] == pre && s[p + 4..] == post;
  }

  /** Conversely, a reply with the marker is such a split, so it is the
      marker-free prefix, "SQL:" and the rest. */
  lemma ParseFindsSplit(aiResponse: string)
    requires Contains(aiResponse, SqlMarker())
    ensures exists pre, post ::
      && aiResponse == pre + SqlMarker() + post && !Contains(pre, SqlMarker())
      && ParseAiResponse(aiResponse) == Some(ParsedReply(Trim(pre), Some(Trim(post)), true))
  {
    var pre, post := SplitAtFirstMarker(aiResponse);
    ParseSplitsAtFirstMarker(aiResponse, pre, post);
  }

  /** The text around the first "SQL:". */
  lemma SplitAtFirstMarker(aiResponse: string) returns (pre: string, post: string)
    requires Contains(aiResponse, SqlMarker())
    ensures aiResponse == pre + SqlMarker() + post && !Contains(pre, SqlMarker())
  {
    var i := IndexOf(aiResponse, SqlMarker());
    pre, post := aiResponse[..i], aiResponse[i + 4..];
    PrefixBeforeFirstIsFree(aiResponse, SqlMarker());
    SplitAround(aiResponse, i, 4);
    assert aiResponse[i..i + 4] == SqlMarker();
  }

  /** A string is the part before a slice, the slice and the part after it. */
  lemma SplitAround(s: string, i: nat, n: nat)
    requires i + n <= |s|
    ensures s == s[..i] + s[i..i + n] + s[i + n..]
  {
  }

  /** The text before the first occurrence holds no occurrence. */
  lemma PrefixBeforeFirstIsFree(s: string, pat: string)
    requires pat != [] && Contains(s, pat)
    ensures !Contains(s[..IndexOf(s, pat)], pat)
  {
    var i := IndexOf(s, pat);
    if Contains(s[..i], pat) {
      var j := IndexOf(s[..i], pat);
      assert j < i;
      assert s[j..j + |pat|] == s[..i][j..j + |pat|];
      assert OccursAt(s, pat, j);
      assert false;
    }
  }

  // ---------------------------------------------------------------------------
  // formatSqlForJson
  // ---------------------------------------------------------------------------

  /** A string, or a list of strings when there is not exactly one statement. */
  datatype FormattedSql = Statement(sql: string) | StatementList(statements: seq<string>)

  /** One piece between semicolons, with newlines turned into blanks,
      white-space runs collapsed to one blank and the ends trimmed. */
  function CleanStatement(piece: string): string {
    Trim(CollapseSpaces(ReplaceChar(piece, '\n', ' ')))
  }

  /** The cleaned piece is collapsed and trimmed, keeps exactly the visible
      characters of the piece, and is empty exactly when the piece is blank. */
  lemma CleanStatementShape(piece: string)
    ensures var r := CleanStatement(piece);
      && Collapsed(r)
      && (r != [] ==> !IsSpace(r[0]) && !IsSpace(r[|r| - 1]))
      && SameVisible(r, piece)
      && (r == [] <==> IsBlank(piece))
  {
    CleanedShape(piece);
    CleanedVisible(piece);
    CleanedEmpty(piece);
  }

  lemma CleanedShape(piece: string)
    ensures var r := CleanStatement(piece);
      Collapsed(r) && (r != [] ==> !IsSpace(r[0]) && !IsSpace(r[|r| - 1]))
  {
    var collapsed := CollapseSpaces(ReplaceChar(piece, '\n', ' '));
    CollapseSpacesCollapsed(ReplaceChar(piece, '\n', ' '));
    TrimCollapsed(collapsed);
    TrimSlice(collapsed);
  }

  lemma CleanedVisible(piece: string)
    ensures SameVisible(CleanStatement(piece), piece)
  {
    var spaced := ReplaceChar(piece, '\n', ' ');
    ReplaceNewlineVisible(piece);
    CollapseSpacesCollapsed(spaced);
    TrimVisible(CollapseSpaces(spaced));
  }

  lemma CleanedEmpty(piece: string)
    ensures CleanStatement(piece) == [] <==> IsBlank(piece)
  {
    var r := CleanStatement(piece);
    CleanedShape(piece);
    CleanedVisible(piece);
    SameVisibleBlank(r, piece);
    if r != [] {
      assert !IsSpace(r[0]);
    }
  }

  /** A non-empty cleaned piece without a semicolon is a clean statement. */
  lemma CleanPieceIsClean(piece: string)
    requires ';' !in piece && !IsBlank(piece)
    ensures CleanSql(CleanStatement(piece))
  {
    CleanStatementShape(piece);
    ShapedIsClean(CleanStatement(piece), piece);
  }

  lemma ShapedIsClean(s: string, piece: string)
    requires ';' !in piece && !IsBlank(piece)
    requires Collapsed(s) && (s != [] ==> !IsSpace(s[0]) && !IsSpace(s[|s| - 1]))
    requires SameVisible(s, piece) && (s == [] <==> IsBlank(piece))
    ensures CleanSql(s)
  {
    CollapsedOneLine(s);
    VisibleAbsent(s, piece, ';');
  }

  /** `.map(f)` over a list of strings. */
  function MapStrings(f: string -> string, ss: seq<string>): (r: seq<string>)
    ensures |r| == |ss|
  {
    if ss == [] then [] else MapStrings(f, ss[..|ss| - 1]) + [f(ss[|ss| - 1])]
  }

  /** The k-th mapped string is `f` of the k-th string. */
  lemma {:induction false} MapStringsAt(f: string -> string, ss: seq<string>, k: nat)
    requires k < |ss|
    ensures MapStrings(f, ss)[k] == f(ss[k])
    decreases |ss|
  {
    var init := ss[..|ss| - 1];
    if k < |init| {
      MapStringsAt(f, init, k);
      assert init[k] == ss[k];
    }
  }

  /** Mapping a list with one more string at the end adds its image at the end. */
  lemma MapStringsAppend(f: string -> string, ss: seq<string>, t: string)
    ensures MapStrings(f, ss + [t]) == MapStrings(f, ss) + [f(t)]
  {
    assert (ss + [t])[..|ss|] == ss;
  }

  /** `.map(stmt => ...)` over the pieces: each piece cleaned. */
  function CleanAll(pieces: seq<string>): seq<string> {
    MapStrings(CleanStatement, pieces)
  }

  /** `.filter(stmt => stmt.length > 0)`. */
  function DropEmpty(ss: seq<string>): (r: seq<string>)
    ensures forall k :: 0 <= k < |r| ==> r[k] != [] && r[k] in ss
  {
    if ss == [] then []
    else
      var init := DropEmpty(ss[..|ss| - 1]);
      var last := ss[|ss| - 1];
      init + (if last == [] then [] else [last])
  }

  /** The non-empty cleaned statements of `sql`, in order. */
  function SqlStatements(sql: string): seq<string> {
    DropEmpty(CleanAll(Split(sql, ';')))
  }

  /** `formatSqlForJson`: `None` stands for `null` on blank input; one
      statement comes back bare, any other number as a list. */
  function FormatSqlForJson(sql: string): (r: Option<FormattedSql>)
    ensures r.None? <==> IsBlank(sql)
    ensures r.Some? ==> (r.value.Statement? <==> |SqlStatements(sql)| == 1)
  {
    TrimEmptyIffBlank(sql);
    if Trim(sql) == [] then None
    else
      var statements := SqlStatements(sql);
      if |statements| == 1 then Some(Statement(statements[0])) else Some(StatementList(statements))
  }

  /** A statement as `formatSqlForJson` leaves it: not empty, without a
      semicolon, on one line, trimmed and with single blanks only. */
  predicate CleanSql(s: string) {
    && s != []
    && ';' !in s && '\n' !in s
    && !IsSpace(s[0]) && !IsSpace(s[|s| - 1])
    && Collapsed(s)
  }

  /** Every statement, bare or in the list, is clean. */
  predicate AllClean(f: FormattedSql) {
    match f
    case Statement(s) => CleanSql(s)
    case StatementList(l) => forall k :: 0 <= k < |l| ==> CleanSql(l[k])
  }

  /** The statements of any SQL text are clean. */
  lemma StatementsAreClean(sql: string)
    ensures forall k :: 0 <= k < |SqlStatements(sql)| ==> CleanSql(SqlStatements(sql)[k])
  {
    var pieces := Split(sql, ';');
    SplitJoin(sql, ';');
    forall k | 0 <= k < |SqlStatements(sql)| ensures CleanSql(SqlStatements(sql)[k]) {
      KeptPieceIsClean(pieces, k);
    }
  }

  /** A kept statement comes from a piece without a semicolon, so it is clean. */
  lemma KeptPieceIsClean(pieces: seq<string>, k: nat)
    requires forall j :: 0 <= j < |pieces| ==> ';' !in pieces[j]
    requires k < |DropEmpty(CleanAll(pieces))|
    ensures CleanSql(DropEmpty(CleanAll(pieces))[k])
  {
    var cleaned := CleanAll(pieces);
    var s := DropEmpty(cleaned)[k];
    assert s in cleaned && s != [];
    var j :| 0 <= j < |cleaned| && cleaned[j] == s;
    MapStringsAt(CleanStatement, pieces, j);
    CleanStatementShape(pieces[j]);
    CleanPieceIsClean(pieces[j]);
  }

  /** Every result of `formatSqlForJson` is made of clean statements. */
  lemma FormattedIsClean(sql: string)
    requires !IsBlank(sql)
    ensures AllClean(FormatSqlForJson(sql).value)
  {
    StatementsAreClean(sql);
  }

  /** A clean statement is its own cleaned form. */
  lemma CleanStatementFixes(s: string)
    requires CleanSql(s)
    ensures CleanStatement(s) == s
  {
    assert ReplaceChar(s, '\n', ' ') == s;
    CollapseSpacesIdentity(s);
    TrimOfTrimmed(s);
  }

  /** Formatting a bare statement again gives the same statement. */
  lemma FormatIdempotent(sql: string)
    requires !IsBlank(sql) && FormatSqlForJson(sql).value.Statement?
    ensures FormatSqlForJson(FormatSqlForJson(sql).value.sql) == FormatSqlForJson(sql)
  {
    var s := FormatSqlForJson(sql).value.sql;
    StatementsAreClean(sql);
    FormatOfClean(s);
  }

  /** A clean statement formats to itself. */
  lemma FormatOfClean(s: string)
    requires CleanSql(s)
    ensures FormatSqlForJson(s) == Some(Statement(s))
  {
    assert !IsBlank(s) by { assert !IsSpace(s[0]); }
    CleanStatementFixes(s);
    OnePiece(s);
  }

  /** SQL without a semicolon is one statement: its cleaned form. */
  lemma NoSemicolonOneStatement(sql: string)
    requires !IsBlank(sql) && ';' !in sql
    ensures FormatSqlForJson(sql) == Some(Statement(CleanStatement(sql)))
  {
    OnePiece(sql);
  }

  /** Text without a semicolon is a single piece, kept when it is not blank. */
  lemma OnePiece(sql: string)
    requires !IsBlank(sql) && ';' !in sql
    ensures SqlStatements(sql) == [CleanStatement(sql)]
  {
    SplitWithoutSeparator(sql, ';');
    CleanStatementShape(sql);
    var none: seq<string> := [];
    assert none + [sql] == [sql];
    MapStringsAppend(CleanStatement, none, sql);
    DropEmptyAppend(none, CleanStatement(sql));
    assert none + [CleanStatement(sql)] == [CleanStatement(sql)];
  }

  /** A trailing separator adds one empty piece at the end. */
  lemma {:induction false} SplitAppendSeparator(s: string, sep: char)
    ensures Split(s + [sep], sep) == Split(s, sep) + [[]]
    decreases |s|
  {
    if s == [] {
      assert [sep][1..] == [];
    } else {
      var rest := Split(s[1..], sep);
      SplitAppendSeparator(s[1..], sep);
      assert (s + [sep])[1..] == s[1..] + [sep];
      assert (s + [sep])[0] == s[0];
    }
  }

  /** Dropping empty strings ignores an empty string at the end. */
  lemma DropEmptyLastEmpty(ss: seq<string>)
    ensures DropEmpty(ss + [[]]) == DropEmpty(ss)
  {
    assert (ss + [[]])[..|ss|] == ss;
  }

  /** Appending ";" to non-blank SQL changes nothing: the empty piece it
      adds is dropped. */
  lemma AppendedSemicolonIsDropped(sql: string)
    requires !IsBlank(sql)
    ensures FormatSqlForJson(sql + ";") == FormatSqlForJson(sql)
  {
    TrailingSemicolonAddsNoStatement(sql);
    assert !IsBlank(sql + ";") by {
      var j :| 0 <= j < |sql| && !IsSpace(sql[j]);
      assert (sql + ";")[j] == sql[j];
    }
  }

  /** The statements of `sql + ";"` are those of `sql`. */
  lemma TrailingSemicolonAddsNoStatement(sql: string)
    ensures SqlStatements(sql + ";") == SqlStatements(sql)
  {
    assert sql + ";" == sql + [';'];
    SplitAppendSeparator(sql, ';');
    var pieces := Split(sql, ';');
    CleanAllEmptyLast(pieces);
    DropEmptyLastEmpty(CleanAll(pieces));
  }

  lemma CleanAllEmptyLast(pieces: seq<string>)
    ensures CleanAll(pieces + [[]]) == CleanAll(pieces) + [[]]
  {
    var empty: string := [];
    assert CleanStatement(empty) == [];
    MapStringsAppend(CleanStatement, pieces, empty);
  }

  /** Positions of the pieces that are not blank. */
  function NonBlankIndices(pieces: seq<string>): (idx: seq<nat>)
    ensures forall k :: 0 <= k < |idx| ==> idx[k] < |pieces| && !IsBlank(pieces[idx[k]])
  {
    if pieces == [] then []
    else
      var init := NonBlankIndices(pieces[..|pieces| - 1]);
      if IsBlank(pieces[|pieces| - 1]) then init else init + [|pieces| - 1]
  }

  /** The positions are increasing and every non-blank piece has its position listed. */
  lemma {:induction false} NonBlankIndicesComplete(pieces: seq<string>)
    ensures var idx := NonBlankIndices(pieces);
      && (forall i, j :: 0 <= i < j < |idx| ==> idx[i] < idx[j])
      && (forall j :: 0 <= j < |pieces| && !IsBlank(pieces[j]) ==> j in idx)
    decreases |pieces|
  {
    if pieces != [] {
      var init := pieces[..|pieces| - 1];
      NonBlankIndicesComplete(init);
      assert forall j :: 0 <= j < |init| ==> init[j] == pieces[j];
    }
  }

  /** The statements are exactly the non-blank pieces between semicolons,
      cleaned, in the order they appear in the input. */
  lemma StatementsInOrder(pieces: seq<string>)
    ensures var idx := NonBlankIndices(pieces);
      DropEmpty(CleanAll(pieces)) == seq(|idx|, k requires 0 <= k < |idx| => CleanStatement(pieces[idx[k]]))
  {
    forall j | 0 <= j < |pieces| ensures CleanStatement(pieces[j]) == [] <==> IsBlank(pieces[j]) {
      CleanStatementShape(pieces[j]);
    }
    FilterMapInOrder(CleanStatement, pieces);
  }

  /** Mapping with an `f` that empties exactly the blank strings and then
      dropping the empty results keeps the images of the non-blank strings,
      in order. */
  lemma {:induction false} FilterMapInOrder(f: string -> string, ss: seq<string>)
    requires forall j :: 0 <= j < |ss| ==> (f(ss[j]) == [] <==> IsBlank(ss[j]))
    ensures var idx := NonBlankIndices(ss);
      DropEmpty(MapStrings(f, ss)) == seq(|idx|, k requires 0 <= k < |idx| => f(ss[idx[k]]))
    decreases |ss|
  {
    if ss != [] {
      var init := ss[..|ss| - 1];
      var last := ss[|ss| - 1];
      assert forall j :: 0 <= j < |init| ==> init[j] == ss[j];
      FilterMapInOrder(f, init);
      assert ss == init + [last];
      MapStringsAppend(f, init, last);
      DropEmptyAppend(MapStrings(f, init), f(last));
      var idx0 := NonBlankIndices(init);
      PickedFromPrefix(f, ss, idx0);
      if !IsBlank(last) {
        PickedAppend(f, ss, idx0, |ss| - 1);
      }
    }
  }

  /** Dropping empty strings from a list with one more string at the end. */
  lemma DropEmptyAppend(ss: seq<string>, t: string)
    ensures DropEmpty(ss + [t]) == DropEmpty(ss) + (if t == [] then [] else [t])
  {
    assert (ss + [t])[..|ss|] == ss;
  }

  /** Picking positions of the front part reads the same strings in the whole. */
  lemma PickedFromPrefix(f: string -> string, ss: seq<string>, idx: seq<nat>)
    requires ss != [] && forall k :: 0 <= k < |idx| ==> idx[k] < |ss| - 1
    ensures seq(|idx|, k requires 0 <= k < |idx| => f(ss[..|ss| - 1][idx[k]]))
         == seq(|idx|, k requires 0 <= k < |idx| => f(ss[idx[k]]))
  {
  }

  /** Picking one more position adds its image at the end. */
  lemma PickedAppend(f: string -> string, ss: seq<string>, idx: seq<nat>, n: nat)
    requires n < |ss| && forall k :: 0 <= k < |idx| ==> idx[k] < |ss|
    ensures seq(|idx| + 1, k requires 0 <= k < |idx| + 1 => f(ss[(idx + [n])[k]]))
         == seq(|idx|, k requires 0 <= k < |idx| => f(ss[idx[k]])) + [f(ss[n])]
  {
  }

  /** The pieces `sql` splits into join back to it. */
  lemma PiecesRebuildInput(sql: string)
    ensures Join(Split(sql, ';'), ";") == sql
  {
    SplitJoin(sql, ';');
  }

  // ---------------------------------------------------------------------------
  // sendMessage: the reply for a cleaned model answer
  // ---------------------------------------------------------------------------

  /** The `type` field of a successful reply. */
  datatype ReplyKind = SchemaReply | QueryReply | ConversationReply | ErrorReply

  /** The JSON body of a successful `sendMessage`. */
  datatype Reply = Reply(
    sessionId: SessionId,
    intent: Intent,
    message: string,
    hasSql: bool,
    kind: ReplyKind,
    sql: Option<FormattedSql>,
    tableName: Option<string>,
    allTables: Option<seq<string>>)

  /** The artifact a reply adds to the chat besides its two messages. */
  datatype StoreAction =
    | StoreSchema(tableName: string, sqlStatement: string)
    | StoreQuery(generatedSql: string)
    | StoreNothing

  datatype Outcome = Outcome(reply: Reply, action: StoreAction)

  const SchemaFallback: string := "Could not generate schema. Please provide more details."
  const QueryFallback: string := "Could not generate query. Please check your request."
  /** Minimum lengths (exclusive), in UTF-16 code units, of the SQL part for a schema and for a query. */
  const SchemaSqlMinimum: nat := 10
  const QuerySqlMinimum: nat := 5

  /** `s.endsWith(";")`. */
  predicate EndsWithSemicolon(s: string) {
    s != [] && s[|s| - 1] == ';'
  }

  /** `a || b` on strings: the empty string is falsy. */
  function OrElse(a: string, b: string): string {
    if a == [] then b else a
  }

  /** The SQL part of a parsed reply that is long enough for this path;
      `length` counts UTF-16 code units. */
  predicate UsableSql(parsed: ParsedReply, minimum: nat) {
    parsed.hasSql && parsed.sql.Some? && Utf16Length(parsed.sql.value) > minimum
  }

  /** How the schema path stores formatted SQL: a bare statement as it is, a
      list as its JSON text. */
  function SchemaSqlToStore(clean: FormattedSql): string {
    match clean
    case Statement(s) => s
    case StatementList(l) => StringArray(l)
  }

  /** How the query path picks the SQL to store, as written: the bare
      statement, or the first element of the list, which does not exist
      (JavaScript's `undefined`, here `None`) when the list is empty. */
  function QuerySqlToStoreAsWritten(clean: FormattedSql): Option<string> {
    match clean
    case Statement(s) => Some(s)
    case StatementList(l) => if l == [] then None else Some(l[0])
  }

  /** What the query path formats: the SQL with a ";" added unless it ends with one. */
  function Terminated(sql: string): string {
    if EndsWithSemicolon(sql) then sql else sql + ";"
  }

  /** The SQL part of a non-blank reply, when present, is trimmed and so is
      blank only when it is empty. */
  lemma SqlPartNotBlank(aiResponse: string)
    requires !IsBlank(aiResponse)
    ensures var p := ParseAiResponse(aiResponse).value;
      p.sql.Some? && p.sql.value != [] ==> !IsBlank(p.sql.value)
  {
    TrimEmptyIffBlank(aiResponse);
    var i := IndexOf(aiResponse, SqlMarker());
    if i != -1 {
      var post := aiResponse[i + 4..];
      TrimEmptyIffBlank(post);
      TrimVisible(post);
      SameVisibleBlank(Trim(post), post);
    }
  }

  /** Formatting the terminated SQL gives what formatting the SQL gives. */
  lemma TerminatedFormatsAlike(sql: string)
    requires !IsBlank(sql)
    ensures FormatSqlForJson(Terminated(sql)) == FormatSqlForJson(sql)
  {
    if !EndsWithSemicolon(sql) {
      AppendedSemicolonIsDropped(sql);
    }
  }

  /** The reply and the stored artifact for a non-blank cleaned model answer,
      following the intent's branch of the handler. */
  function Respond(sessionId: SessionId, intent: Intent, aiResponse: string): Outcome
    requires !IsBlank(aiResponse)
  {
    TrimEmptyIffBlank(aiResponse);
    SqlPartNotBlank(aiResponse);
    RespondTo(sessionId, intent, aiResponse, ParseAiResponse(aiResponse).value)
  }

  /** A SQL part that is present and not empty is not blank (it is trimmed). */
  predicate SqlPartTrimmed(parsed: ParsedReply) {
    parsed.sql.Some? && parsed.sql.value != [] ==> !IsBlank(parsed.sql.value)
  }

  /** The branch on the intent, for the parsed answer. */
  function RespondTo(sessionId: SessionId, intent: Intent, aiResponse: string, parsed: ParsedReply): Outcome
    requires aiResponse != [] && SqlPartTrimmed(parsed)
  {
    var base := Reply(sessionId, intent, OrElse(parsed.text, aiResponse), parsed.hasSql,
                      ConversationReply, None, None, None);
    match intent
    case Schema | OptimizeSchema =>
      if UsableSql(parsed, SchemaSqlMinimum) then SchemaOutcome(base, parsed.sql.value)
      else Failed(base, parsed.text, SchemaFallback)
    case Query | OptimizeQuery =>
      if UsableSql(parsed, QuerySqlMinimum) then QueryOutcome(base, parsed.text, parsed.sql.value)
      else Failed(base, parsed.text, QueryFallback)
    case Conversation =>
      Outcome(base.(kind := ConversationReply, hasSql := false), StoreNothing)
  }

  /** The `error` reply: the explanation, or the fallback text without one; nothing is stored. */
  function Failed(base: Reply, text: string, fallback: string): Outcome {
    Outcome(base.(kind := ErrorReply, message := OrElse(text, fallback), hasSql := false), StoreNothing)
  }

  /** The schema path: every table name, the primary one, and the formatted
      SQL stored under the primary table name. */
  function SchemaOutcome(base: Reply, sql: string): Outcome
    requires !IsBlank(sql)
  {
    var names := ExtractAllTableNames(sql);
    var primary := if names != [] && names[0] != [] then names[0] else ExtractTableName(sql);
    var clean := FormatSqlForJson(sql).value;
    Outcome(base.(kind := SchemaReply, sql := Some(clean), tableName := Some(primary), allTables := Some(names)),
            StoreSchema(primary, SchemaSqlToStore(clean)))
  }

  /** The query path: the terminated SQL formatted, its first statement
      stored. A formatted list without statements gets the error reply and
      stores nothing. */
  function QueryOutcome(base: Reply, text: string, sql: string): Outcome
    requires !IsBlank(sql)
  {
    TerminatedFormatsAlike(sql);
    StoreFormatted(base, text, FormatSqlForJson(Terminated(sql)).value)
  }

  /** The query reply for formatted SQL: its first statement is stored, and
      without one the reply is the error. */
  function StoreFormatted(base: Reply, text: string, clean: FormattedSql): Outcome {
    match QuerySqlToStoreAsWritten(clean)
    case Some(q) => Outcome(base.(kind := QueryReply, sql := Some(clean)), StoreQuery(q))
    case None => Failed(base, text, QueryFallback)
  }

  // ---------------------------------------------------------------------------
  // Properties of the reply
  // ---------------------------------------------------------------------------

  /** Formatting non-blank SQL gives its statements: one bare, any other number as a list. */
  lemma FormatOfStatements(sql: string)
    requires !IsBlank(sql)
    ensures FormatSqlForJson(sql).value
      == if |SqlStatements(sql)| == 1 then Statement(SqlStatements(sql)[0]) else StatementList(SqlStatements(sql))
  {
    TrimEmptyIffBlank(sql);
  }

  /** The schema path stores a schema exactly when the reply has a SQL part
      longer than 10 code units. The table name is the first CREATE TABLE
      name ("unknown_table" without one), the reply lists every name and
      carries the formatted SQL; a single statement is stored as it is and a
      list as JSON text that reads back as that list. Otherwise the reply is
      an error without SQL. */
  lemma SchemaPath(sessionId: SessionId, intent: Intent, aiResponse: string)
    requires !IsBlank(aiResponse) && (intent == Schema || intent == OptimizeSchema)
    ensures var p := ParseAiResponse(aiResponse).value;
      var o := Respond(sessionId, intent, aiResponse);
      && (o.action.StoreSchema? <==> UsableSql(p, SchemaSqlMinimum))
      && (o.action.StoreSchema? ==> UsableSql(p, SchemaSqlMinimum) && SchemaStored(p.sql.value, o))
      && (!o.action.StoreSchema? ==> o.action == StoreNothing && o.reply.kind == ErrorReply && !o.reply.hasSql)
  {
    TrimEmptyIffBlank(aiResponse);
    SqlPartNotBlank(aiResponse);
    SchemaPathOf(sessionId, intent, aiResponse, ParseAiResponse(aiResponse).value);
  }

  /** What a stored schema is, for its SQL part. */
  predicate SchemaStored(sql: string, o: Outcome) {
    && o.action.StoreSchema?
    && o.action.tableName == ExtractTableName(sql)
    && o.reply.kind == SchemaReply && o.reply.hasSql
    && o.reply.sql == FormatSqlForJson(sql)
    && o.reply.tableName == Some(ExtractTableName(sql))
    && o.reply.allTables == Some(ExtractAllTableNames(sql))
    && match FormatSqlForJson(sql)
       case None => false
       case Some(Statement(st)) => o.action.sqlStatement == st
       case Some(StatementList(l)) => l == SqlStatements(sql) && ReadStringArray(o.action.sqlStatement) == Some(l)
  }

  lemma SchemaPathOf(sessionId: SessionId, intent: Intent, aiResponse: string, p: ParsedReply)
    requires aiResponse != [] && SqlPartTrimmed(p) && (intent == Schema || intent == OptimizeSchema)
    ensures var o := RespondTo(sessionId, intent, aiResponse, p);
      && (o.action.StoreSchema? <==> UsableSql(p, SchemaSqlMinimum))
      && (o.action.StoreSchema? ==> UsableSql(p, SchemaSqlMinimum) && SchemaStored(p.sql.value, o))
      && (!o.action.StoreSchema? ==> o.action == StoreNothing && o.reply.kind == ErrorReply && !o.reply.hasSql)
  {
    if UsableSql(p, SchemaSqlMinimum) {
      var sql := p.sql.value;
      FirstNameAgrees(sql);
      FormatOfStatements(sql);
      StringArrayRoundTrip(SqlStatements(sql));
    }
  }

  /** The query path stores a query exactly when the reply has a SQL part
      longer than 5 code units that holds a statement; what it stores is the
      first statement, clean, and the reply carries the formatted SQL.
      Otherwise the reply is an error without SQL. */
  lemma QueryPath(sessionId: SessionId, intent: Intent, aiResponse: string)
    requires !IsBlank(aiResponse) && (intent == Query || intent == OptimizeQuery)
    ensures var p := ParseAiResponse(aiResponse).value;
      var o := Respond(sessionId, intent, aiResponse);
      && (o.action.StoreQuery? <==> UsableSql(p, QuerySqlMinimum) && SqlStatements(p.sql.value) != [])
      && (o.action.StoreQuery? ==> UsableSql(p, QuerySqlMinimum) && QueryStored(p.sql.value, o))
      && (!o.action.StoreQuery? ==> o.action == StoreNothing && o.reply.kind == ErrorReply && !o.reply.hasSql)
  {
    TrimEmptyIffBlank(aiResponse);
    SqlPartNotBlank(aiResponse);
    QueryPathOf(sessionId, intent, aiResponse, ParseAiResponse(aiResponse).value);
  }

  /** What a stored query is, for its SQL part. */
  predicate QueryStored(sql: string, o: Outcome) {
    && SqlStatements(sql) != []
    && o.action.StoreQuery?
    && o.action.generatedSql == SqlStatements(sql)[0]
    && CleanSql(o.action.generatedSql)
    && o.reply.kind == QueryReply && o.reply.hasSql
    && o.reply.sql == FormatSqlForJson(sql)
  }

  lemma QueryPathOf(sessionId: SessionId, intent: Intent, aiResponse: string, p: ParsedReply)
    requires aiResponse != [] && SqlPartTrimmed(p) && (intent == Query || intent == OptimizeQuery)
    ensures var o := RespondTo(sessionId, intent, aiResponse, p);
      && (o.action.StoreQuery? <==> UsableSql(p, QuerySqlMinimum) && SqlStatements(p.sql.value) != [])
      && (o.action.StoreQuery? ==> UsableSql(p, QuerySqlMinimum) && QueryStored(p.sql.value, o))
      && (!o.action.StoreQuery? ==> o.action == StoreNothing && o.reply.kind == ErrorReply && !o.reply.hasSql)
  {
    if UsableSql(p, QuerySqlMinimum) {
      var sql := p.sql.value;
      TerminatedFormatsAlike(sql);
      FormatOfStatements(sql);
      StatementsAreClean(sql);
    }
  }

  /** Every reply names its session and intent and has a message; it claims
      SQL exactly when something is stored, that SQL is clean, and it is an
      error exactly when a SQL intent stores nothing. A conversation stores
      nothing. */
  lemma ReplyFacts(sessionId: SessionId, intent: Intent, aiResponse: string)
    requires !IsBlank(aiResponse)
    ensures ReplyShape(sessionId, intent, Respond(sessionId, intent, aiResponse))
  {
    TrimEmptyIffBlank(aiResponse);
    SqlPartNotBlank(aiResponse);
    ReplyFactsOf(sessionId, intent, aiResponse, ParseAiResponse(aiResponse).value);
  }

  /** The facts every reply shares, as a predicate on the outcome. */
  predicate ReplyShape(sessionId: SessionId, intent: Intent, o: Outcome) {
    && o.reply.sessionId == sessionId && o.reply.intent == intent
    && o.reply.message != []
    && (o.reply.hasSql <==> o.action != StoreNothing)
    && (o.reply.sql.Some? <==> o.action != StoreNothing)
    && (o.reply.sql.Some? ==> AllClean(o.reply.sql.value))
    && (o.reply.kind == ErrorReply <==> o.action == StoreNothing && intent != Conversation)
    && (intent == Conversation ==> o.action == StoreNothing && o.reply.kind == ConversationReply)
  }

  lemma ReplyFactsOf(sessionId: SessionId, intent: Intent, aiResponse: string, p: ParsedReply)
    requires aiResponse != [] && SqlPartTrimmed(p)
    ensures ReplyShape(sessionId, intent, RespondTo(sessionId, intent, aiResponse, p))
  {
    if intent == Schema || intent == OptimizeSchema {
      SchemaReplyShape(sessionId, intent, aiResponse, p);
    } else if intent == Query || intent == OptimizeQuery {
      QueryReplyShape(sessionId, intent, aiResponse, p);
    }
  }

  lemma SchemaReplyShape(sessionId: SessionId, intent: Intent, aiResponse: string, p: ParsedReply)
    requires aiResponse != [] && SqlPartTrimmed(p) && (intent == Schema || intent == OptimizeSchema)
    ensures ReplyShape(sessionId, intent, RespondTo(sessionId, intent, aiResponse, p))
  {
    SchemaPathOf(sessionId, intent, aiResponse, p);
    if UsableSql(p, SchemaSqlMinimum) {
      FormattedIsClean(p.sql.value);
    }
  }

  lemma QueryReplyShape(sessionId: SessionId, intent: Intent, aiResponse: string, p: ParsedReply)
    requires aiResponse != [] && SqlPartTrimmed(p) && (intent == Query || intent == OptimizeQuery)
    ensures ReplyShape(sessionId, intent, RespondTo(sessionId, intent, aiResponse, p))
  {
    if UsableSql(p, QuerySqlMinimum) {
      var base := RespondToQuery(sessionId, intent, aiResponse, p);
      QueryOutcomeShape(base, p.text, p.sql.value);
    }
  }

  /** The query path's outcome has the shape of every reply. */
  lemma QueryOutcomeShape(base: Reply, text: string, sql: string)
    requires !IsBlank(sql) && base.message != [] && base.hasSql && base.sql.None? && base.intent != Conversation
    ensures ReplyShape(base.sessionId, base.intent, QueryOutcome(base, text, sql))
  {
    TerminatedFormatsAlike(sql);
    FormattedIsClean(sql);
    StoredShape(base, text, FormatSqlForJson(sql).value);
  }

  lemma StoredShape(base: Reply, text: string, clean: FormattedSql)
    requires AllClean(clean) && base.message != [] && base.hasSql && base.sql.None? && base.intent != Conversation
    ensures ReplyShape(base.sessionId, base.intent, StoreFormatted(base, text, clean))
  {
  }

  // ---------------------------------------------------------------------------
  // The query whose SQL holds no statement
  // ---------------------------------------------------------------------------

  /** Text made of semicolons only holds no statement. */
  lemma OnlySemicolonsNoStatements(sql: string)
    requires forall k :: 0 <= k < |sql| ==> sql[k] == ';'
    ensures SqlStatements(sql) == []
  {
    var pieces := Split(sql, ';');
    forall j | 0 <= j < |pieces| ensures IsBlank(pieces[j]) {
      PieceOfSemicolonsIsEmpty(sql, j);
    }
    StatementsInOrder(pieces);
    NoIndicesWhenAllBlank(pieces);
  }

  /** Splitting semicolons on ";" leaves only empty pieces. */
  lemma PieceOfSemicolonsIsEmpty(sql: string, j: nat)
    requires forall k :: 0 <= k < |sql| ==> sql[k] == ';'
    requires j < |Split(sql, ';')|
    ensures Split(sql, ';')[j] == []
  {
    var pieces := Split(sql, ';');
    SplitJoin(sql, ';');
    JoinContainsPart(pieces, ";", j);
    var piece := pieces[j];
    if piece != [] {
      assert false;
    }
  }

  /** No piece is kept when all are blank. */
  lemma {:induction false} NoIndicesWhenAllBlank(pieces: seq<string>)
    requires forall j :: 0 <= j < |pieces| ==> IsBlank(pieces[j])
    ensures NonBlankIndices(pieces) == []
    decreases |pieces|
  {
    if pieces != [] {
      NoIndicesWhenAllBlank(pieces[..|pieces| - 1]);
    }
  }

  /** A reply made of the marker and semicolons parses to an empty
      explanation and those semicolons. */
  lemma MarkerThenSemicolons(sql: string)
    requires sql != [] && forall k :: 0 <= k < |sql| ==> sql[k] == ';'
    ensures ParseAiResponse(SqlMarker() + sql) == Some(ParsedReply([], Some(sql), true))
  {
    var none: string := [];
    assert SqlMarker() + sql == none + SqlMarker() + sql;
    assert !Contains(none, SqlMarker());
    TrimOfTrimmed(none);
    assert !IsSpace(sql[0]) && !IsSpace(sql[|sql| - 1]);
    TrimOfTrimmed(sql);
    ParseSplitsAtFirstMarker(SqlMarker() + sql, none, sql);
  }

  /** Semicolons alone format to the empty list. */
  lemma SemicolonsFormatToEmptyList(sql: string)
    requires sql != [] && forall k :: 0 <= k < |sql| ==> sql[k] == ';'
    ensures FormatSqlForJson(sql) == Some(StatementList([]))
  {
    OnlySemicolonsNoStatements(sql);
    SemicolonsNotBlank(sql);
    FormatWithoutStatements(sql);
  }

  lemma SemicolonsNotBlank(sql: string)
    requires sql != [] && forall k :: 0 <= k < |sql| ==> sql[k] == ';'
    ensures !IsBlank(sql)
  {
    assert !IsSpace(sql[0]);
  }

  /** Non-blank SQL without statements formats to the empty list. */
  lemma FormatWithoutStatements(sql: string)
    requires !IsBlank(sql) && SqlStatements(sql) == []
    ensures FormatSqlForJson(sql) == Some(StatementList([]))
  {
    FormatOfStatements(sql);
  }

  /** As written, a query reply made of the marker and six or more
      semicolons ("SQL:;;;;;;") passes the length check, formats to an empty
      list, and leaves nothing to store: `cleanSql[0]` is `undefined`. */
  lemma EmptyQueryListAsWritten(sql: string)
    requires |sql| > QuerySqlMinimum && forall k :: 0 <= k < |sql| ==> sql[k] == ';'
    ensures var p := ParseAiResponse(SqlMarker() + sql).value;
      && UsableSql(p, QuerySqlMinimum)
      && FormatSqlForJson(Terminated(p.sql.value)) == Some(StatementList([]))
      && QuerySqlToStoreAsWritten(FormatSqlForJson(Terminated(p.sql.value)).value) == None
  {
    MarkerThenSemicolons(sql);
    assert EndsWithSemicolon(sql);
    SemicolonsFormatToEmptyList(sql);
  }

  /** With the correction, that reply is the query error: nothing is stored. */
  lemma EmptyQueryListCorrected(sessionId: SessionId, sql: string)
    requires |sql| > QuerySqlMinimum && forall k :: 0 <= k < |sql| ==> sql[k] == ';'
    ensures !IsBlank(SqlMarker() + sql)
    ensures var o := Respond(sessionId, Query, SqlMarker() + sql);
      o.action == StoreNothing && o.reply.kind == ErrorReply && o.reply.message == QueryFallback
  {
    assert !IsSpace((SqlMarker() + sql)[0]);
    MarkerThenSemicolons(sql);
    OnlySemicolonsNoStatements(sql);
    SemicolonsNotBlank(sql);
    QueryWithoutStatements(sessionId, SqlMarker() + sql, ParsedReply([], Some(sql), true));
  }

  /** A query answer with usable SQL but no statement and no explanation is
      the query error with the fallback message. */
  lemma QueryWithoutStatements(sessionId: SessionId, aiResponse: string, p: ParsedReply)
    requires aiResponse != [] && SqlPartTrimmed(p) && UsableSql(p, QuerySqlMinimum)
    requires SqlStatements(p.sql.value) == [] && p.text == []
    ensures var o := RespondTo(sessionId, Query, aiResponse, p);
      o.action == StoreNothing && o.reply.kind == ErrorReply && o.reply.message == QueryFallback
  {
    var base := RespondToQuery(sessionId, Query, aiResponse, p);
    QueryOutcomeWithoutStatements(base, [], p.sql.value);
  }

  /** An answer to a query intent with usable SQL takes the query path. */
  lemma RespondToQuery(sessionId: SessionId, intent: Intent, aiResponse: string, p: ParsedReply) returns (base: Reply)
    requires aiResponse != [] && SqlPartTrimmed(p) && UsableSql(p, QuerySqlMinimum)
    requires intent == Query || intent == OptimizeQuery
    ensures !IsBlank(p.sql.value)
    ensures base.sessionId == sessionId && base.intent == intent && base.message != [] && base.hasSql && base.sql.None?
    ensures RespondTo(sessionId, intent, aiResponse, p) == QueryOutcome(base, p.text, p.sql.value)
  {
    base := Reply(sessionId, intent, OrElse(p.text, aiResponse), p.hasSql, ConversationReply, None, None, None);
  }

  /** The query path on SQL without a statement: the error reply, nothing stored. */
  lemma QueryOutcomeWithoutStatements(base: Reply, text: string, sql: string)
    requires !IsBlank(sql) && SqlStatements(sql) == []
    ensures var o := QueryOutcome(base, text, sql);
      o.action == StoreNothing && o.reply.kind == ErrorReply && o.reply.message == OrElse(text, QueryFallback)
  {
    TerminatedFormatsAlike(sql);
    FormatWithoutStatements(sql);
  }

  // ---------------------------------------------------------------------------
  // sendMessage
  // ---------------------------------------------------------------------------

  /** What is sent to the model: the chat so far as history, the system
      instruction, and the new message. */
  datatype ModelRequest = ModelRequest(history: seq<HistoryEntry>, systemInstruction: string, message: string)

  /** The HTTP answer: an error status with its message (and the intent
      when one was detected), or the successful reply. */
  datatype Response =
    | Failure(status: nat, error: string, intent: Option<Intent>)
    | Success(reply: Reply)

  const NoMessage: string := "Please provide a message"
  const NoSessionId: string := "Session ID is required"
  const NoSession: string := "Chat session not found"
  const NoAnswer: string := "AI failed to generate a response. Please try again."

  /** `!message || message.trim() === ''`. */
  predicate MissingMessage(message: Option<string>) {
    message.None? || IsBlank(message.value)
  }

  /** `!sessionId`: absent or the empty string. */
  predicate MissingId(sessionId: Option<SessionId>) {
    sessionId.None? || sessionId.value == []
  }

  /** The rows a stored artifact adds to the schema and query tables. */
  function SchemaRows(sessionId: SessionId, action: StoreAction, description: string): seq<SchemaRow> {
    if action.StoreSchema? then [SchemaRow(sessionId, action.tableName, action.sqlStatement, description)] else []
  }

  function QueryRows(sessionId: SessionId, action: StoreAction, naturalLanguage: string): seq<QueryRow> {
    if action.StoreQuery? then [QueryRow(sessionId, naturalLanguage, action.generatedSql, false, None)] else []
  }

  /** The number of writes a successful exchange makes: both messages, the
      artifact if any, and the title of a chat that had no message. */
  function Writes(action: StoreAction, first: bool): nat {
    2 + (if action == StoreNothing then 0 else 1) + (if first then 1 else 0)
  }

  /** What the handler does with the cleaned answer `answer` of the model
      for a message `msg` of intent `intent` in session `sid`: a blank answer
      is a 500 that stores nothing; otherwise the reply `Respond` builds, with
      the user message, the artifact and the answer stored, and a chat that had
      no message (`first`) titled after `msg`. */
  twostate predicate Concluded(store: ChatManager, sid: SessionId, msg: string, intent: Intent, first: bool,
                               answer: string, response: Response)
    reads store
  {
    if IsBlank(answer) then
      response == Failure(500, NoAnswer, Some(intent)) && unchanged(store)
    else
      var o := Respond(sid, intent, answer);
      && response == Success(o.reply)
      && store.messages == old(store.messages) + [MessageRow(sid, "user", msg), MessageRow(sid, "assistant", answer)]
      && store.schemas == old(store.schemas) + SchemaRows(sid, o.action, msg)
      && store.queries == old(store.queries) + QueryRows(sid, o.action, msg)
      && store.clock == old(store.clock) + Writes(o.action, first)
      && store.sessions == if first then Retitled(old(store.sessions), sid, AutoTitle(msg), store.clock)
                           else Bumped(old(store.sessions), sid, store.clock)
  }

  /** An admitted message `msg` for session `sid`: the model is sent the
      recent history, the system instruction for the detected intent and the
      message, and the exchange is concluded with the cleaned answer to
      `reply`. */
  twostate predicate Exchanged(store: ChatManager, sid: SessionId, msg: string, reply: string,
                               new response: Response, new request: Option<ModelRequest>)
    reads store
  {
    var ctx := old(store.GetFullContext(sid));
    var intent := DetectIntent(msg, ctx);
    && InstructionDefined(ctx, intent.Label())
    && request == Some(ModelRequest(BuildChatHistory(ctx.messages), SystemInstruction(ctx, intent.Label()), msg))
    && Concluded(store, sid, msg, intent, ctx.messages == [], CleanSqlResponse(reply), response)
  }

  /** `sendMessage`: validates the request (a 400 for a missing message or
      session id, a 404 for a session the user cannot see) and otherwise
      exchanges the message with the model. Every failure leaves the store as
      it was. */
  method SendMessage(store: ChatManager, userId: UserId, message: Option<string>, sessionId: Option<SessionId>,
                     reply: string)
    returns (response: Response, request: Option<ModelRequest>)
    requires store.Valid()
    modifies store
    ensures store.Valid()
    ensures MissingMessage(message) ==>
      response == Failure(400, NoMessage, None) && request.None? && unchanged(store)
    ensures !MissingMessage(message) && MissingId(sessionId) ==>
      response == Failure(400, NoSessionId, None) && request.None? && unchanged(store)
    ensures (!MissingMessage(message) && !MissingId(sessionId)
             && old(store.GetChatSession(sessionId.value, userId)).None?) ==>
      response == Failure(404, NoSession, None) && request.None? && unchanged(store)
    ensures (!MissingMessage(message) && !MissingId(sessionId)
             && old(store.GetChatSession(sessionId.value, userId)).Some?) ==>
      Exchanged(store, sessionId.value, message.value, reply, response, request)
  {
    if message.None? || IsBlank(message.value) {
      return Failure(400, NoMessage, None), None;
    }
    if sessionId.None? || sessionId.value == [] {
      return Failure(400, NoSessionId, None), None;
    }
    var session := store.GetChatSession(sessionId.value, userId);
    if session.None? {
      return Failure(404, NoSession, None), None;
    }
    response, request := Exchange(store, sessionId.value, message.value, reply);
  }

  /** The admitted path of the handler: context, intent, prompt, the model's
      answer, and the conclusion. */
  method Exchange(store: ChatManager, sid: SessionId, msg: string, reply: string)
    returns (response: Response, request: Option<ModelRequest>)
    requires store.Valid() && FindSession(store.sessions, sid) >= 0
    modifies store
    ensures store.Valid()
    ensures Exchanged(store, sid, msg, reply, response, request)
  {
    var ctx := store.GetFullContext(sid);
    var intent := DetectIntent(msg, ctx);
    DetectedIntentIsBuildable(msg, ctx);
    var systemInstruction := BuildSystemInstruction(ctx, intent.Label());
    var history := BuildChatHistory(ctx.messages);
    request := Some(ModelRequest(history, systemInstruction, msg));
    response := Conclude(store, sid, msg, intent, ctx.messages == [], CleanSqlResponse(reply));
  }

  /** The tail of the handler: the 500 for a blank answer, or the reply and
      the writes of a successful exchange. */
  method Conclude(store: ChatManager, sid: SessionId, msg: string, intent: Intent, first: bool, answer: string)
    returns (response: Response)
    requires store.Valid() && FindSession(store.sessions, sid) >= 0
    modifies store
    ensures store.Valid()
    ensures Concluded(store, sid, msg, intent, first, answer, response)
  {
    if IsBlank(answer) {
      return Failure(500, NoAnswer, Some(intent));
    }
    var outcome := Respond(sid, intent, answer);
    Persist(store, sid, msg, answer, outcome.action, first);
    response := Success(outcome.reply);
  }

  /** The writes of a successful exchange, in the handler's order: the user
      message, the artifact, the answer, and the title of a first exchange.
      The session exists, so every write succeeds and bumps its stamp. */
  method Persist(store: ChatManager, sid: SessionId, msg: string, answer: string, action: StoreAction, first: bool)
    requires store.Valid() && FindSession(store.sessions, sid) >= 0
    modifies store
    ensures store.Valid()
    ensures store.messages == old(store.messages) + [MessageRow(sid, "user", msg), MessageRow(sid, "assistant", answer)]
    ensures store.schemas == old(store.schemas) + SchemaRows(sid, action, msg)
    ensures store.queries == old(store.queries) + QueryRows(sid, action, msg)
    ensures store.clock == old(store.clock) + Writes(action, first)
    ensures store.sessions == if first then Retitled(old(store.sessions), sid, AutoTitle(msg), store.clock)
                              else Bumped(old(store.sessions), sid, store.clock)
  {
    ghost var s0, m0 := store.sessions, store.messages;
    Ask(store, sid, msg, action);
    ghost var c := store.clock;
    StillFound(s0, store.sessions, sid, c);
    Answer(store, sid, msg, answer, first);
    AppendPair(m0, MessageRow(sid, "user", msg), MessageRow(sid, "assistant", answer));
    ExchangeStamps(s0, sid, AutoTitle(msg), c, store.clock, first);
  }

  /** Appending two rows one by one appends the pair. */
  lemma AppendPair<T>(rows: seq<T>, a: T, b: T)
    ensures rows + [a] + [b] == rows + [a, b]
  {
  }

  /** The session row after the two halves of an exchange carries only the last stamp. */
  lemma ExchangeStamps(ss: seq<Session>, id: SessionId, title: string, a: nat, b: nat, first: bool)
    ensures (if first then Retitled(Bumped(ss, id, a), id, title, b) else Bumped(Bumped(ss, id, a), id, b))
      == (if first then Retitled(ss, id, title, b) else Bumped(ss, id, b))
  {
    if first {
      RetitledAfterBumped(ss, id, title, a, b);
    } else {
      BumpedTwice(ss, id, a, b);
    }
  }

  /** The first half of the writes: the user message, then the artifact. */
  method Ask(store: ChatManager, sid: SessionId, msg: string, action: StoreAction)
    requires store.Valid() && FindSession(store.sessions, sid) >= 0
    modifies store
    ensures store.Valid()
    ensures store.messages == old(store.messages) + [MessageRow(sid, "user", msg)]
    ensures store.schemas == old(store.schemas) + SchemaRows(sid, action, msg)
    ensures store.queries == old(store.queries) + QueryRows(sid, action, msg)
    ensures store.clock == old(store.clock) + (if action == StoreNothing then 1 else 2)
    ensures store.sessions == Bumped(old(store.sessions), sid, store.clock)
  {
    ghost var s0 := store.sessions;
    var ok := store.AddMessage(sid, "user", msg);
    ghost var c := store.clock;
    StillFound(s0, store.sessions, sid, c);
    StoreArtifact(store, sid, msg, action);
    if action != StoreNothing {
      BumpedTwice(s0, sid, c, store.clock);
    }
  }

  /** The second half: the answer, then the title of a first exchange. */
  method Answer(store: ChatManager, sid: SessionId, msg: string, answer: string, first: bool)
    requires store.Valid() && FindSession(store.sessions, sid) >= 0
    modifies store
    ensures store.Valid()
    ensures store.messages == old(store.messages) + [MessageRow(sid, "assistant", answer)]
    ensures store.schemas == old(store.schemas) && store.queries == old(store.queries)
    ensures store.clock == old(store.clock) + (if first then 2 else 1)
    ensures store.sessions == if first then Retitled(old(store.sessions), sid, AutoTitle(msg), store.clock)
                              else Bumped(old(store.sessions), sid, store.clock)
  {
    ghost var s0 := store.sessions;
    var ok := store.AddMessage(sid, "assistant", answer);
    if first {
      ghost var c := store.clock;
      store.AutoGenerateChatTitle(sid, msg);
      RetitledAfterBumped(s0, sid, AutoTitle(msg), c, store.clock);
    }
  }

  /** Stores the schema or the query of an exchange, if there is one, in an
      existing session. */
  method StoreArtifact(store: ChatManager, sid: SessionId, msg: string, action: StoreAction)
    requires store.Valid() && FindSession(store.sessions, sid) >= 0
    modifies store
    ensures store.Valid()
    ensures store.messages == old(store.messages)
    ensures store.schemas == old(store.schemas) + SchemaRows(sid, action, msg)
    ensures store.queries == old(store.queries) + QueryRows(sid, action, msg)
    ensures store.clock == old(store.clock) + (if action == StoreNothing then 0 else 1)
    ensures store.sessions == if action == StoreNothing then old(store.sessions)
                              else Bumped(old(store.sessions), sid, store.clock)
  {
    match action {
      case StoreSchema(tableName, sqlStatement) =>
        var ok := store.AddSchema(sid, tableName, sqlStatement, msg);
      case StoreQuery(generatedSql) =>
        var ok := store.AddQuery(sid, msg, generatedSql);
      case StoreNothing =>
    }
  }
}
