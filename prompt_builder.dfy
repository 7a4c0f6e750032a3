/**
 * The prompt side of the assistant: classifying a chat message into an
 * intent, assembling the system instruction sent to the language model,
 * converting stored messages into the model's chat-history roles, and the
 * two regular-expression helpers applied to generated SQL (fence stripping
 * and CREATE TABLE name extraction).
 */
module PromptBuilder {
  import opened Wrappers
  import opened Text
  import opened ChatStore

  // ---------------------------------------------------------------------------
  // Intent detection
  // ---------------------------------------------------------------------------

  /** What a chat message asks for; `Label` is the string the code passes around. */
  datatype Intent = Schema | Query | OptimizeSchema | OptimizeQuery | Conversation
  {
    function Label(): string {
      match this
      case Schema => "schema"
      case Query => "query"
      case OptimizeSchema => "optimize_schema"
      case OptimizeQuery => "optimize_query"
      case Conversation => "conversation"
    }
  }

  function SchemaKeywords(): seq<string> {
    ["create table", "schema", "database design", "table structure", "design database"]
  }

  function QueryKeywords(): seq<string> {
    ["select", "query", "get", "find", "show", "list", "fetch", "retrieve"]
  }

  function OptimizeKeywords(): seq<string> {
    ["optimize", "improve", "better", "enhance", "refactor", "modify"]
  }

  function ConversationKeywords(): seq<string> {
    ["what", "how", "why", "tell me", "explain", "can you", "should i", "help me"]
  }

  /** A keyword that starts and ends with a visible character, so that
      trimming the message cannot create or destroy an occurrence of it. */
  predicate Keyword(w: string) {
    w != [] && !IsSpace(w[0]) && !IsSpace(w[|w| - 1])
  }

  /** The message refers back to an earlier query. */
  predicate MentionsEarlier(input: string) {
    Contains(input, "query") || Contains(input, "above") || Contains(input, "previous")
  }

  /** The message refers to the schema. */
  predicate MentionsStructure(input: string) {
    Contains(input, "schema") || Contains(input, "table")
  }

  /** Which keyword groups a normalised message mentions. */
  datatype Signals = Signals(optimize: bool, earlier: bool, structure: bool,
                             schema: bool, query: bool, conversation: bool)

  function SignalsOf(input: string): Signals {
    Signals(ContainsAny(input, OptimizeKeywords()), MentionsEarlier(input), MentionsStructure(input),
            ContainsAny(input, SchemaKeywords()), ContainsAny(input, QueryKeywords()),
            ContainsAny(input, ConversationKeywords()))
  }

  /** The decision chain on the keyword groups and on what the chat already
      holds. An optimisation is only proposed for something that exists, and
      a query only once a schema exists. */
  function Decide(m: Signals, ctx: ChatContext): (r: Intent)
    ensures r == OptimizeQuery ==> ctx.queries != []
    ensures r == OptimizeSchema ==> ctx.schemas != []
    ensures r == Query ==> ctx.schemas != []
  {
    if m.optimize && m.earlier then
      (if ctx.queries != [] then OptimizeQuery else Conversation)
    else if m.optimize && m.structure then
      (if ctx.schemas != [] then OptimizeSchema else Conversation)
    else if m.optimize && ctx.queries != [] then OptimizeQuery
    else if m.schema then Schema
    else if m.query && ctx.schemas != [] then Query
    else if m.query && ctx.schemas == [] then Conversation
    else if m.conversation then Conversation
    else if ctx.schemas != [] then Query
    else Conversation
  }

  /** Classifies a message by the keywords of its lower-cased, trimmed text. */
  function DetectIntent(userInput: string, ctx: ChatContext): (r: Intent)
    ensures r == OptimizeQuery ==> ctx.queries != []
    ensures r == OptimizeSchema ==> ctx.schemas != []
    ensures r == Query ==> ctx.schemas != []
  {
    Decide(SignalsOf(Trim(Lower(userInput))), ctx)
  }

  /** Every keyword in the four lists starts and ends with a visible character. */
  lemma KeywordListsAreKeywords()
    ensures forall k :: 0 <= k < |SchemaKeywords()| ==> Keyword(SchemaKeywords()[k])
    ensures forall k :: 0 <= k < |QueryKeywords()| ==> Keyword(QueryKeywords()[k])
    ensures forall k :: 0 <= k < |OptimizeKeywords()| ==> Keyword(OptimizeKeywords()[k])
    ensures forall k :: 0 <= k < |ConversationKeywords()| ==> Keyword(ConversationKeywords()[k])
  {
    SchemaKeywordsAreKeywords();
    OptimizeKeywordsAreKeywords();
    assert forall k :: 0 <= k < |QueryKeywords()| ==> Keyword(QueryKeywords()[k]);
  }

  lemma SchemaKeywordsAreKeywords()
    ensures forall k :: 0 <= k < |SchemaKeywords()| ==> Keyword(SchemaKeywords()[k])
  {
  }

  lemma OptimizeKeywordsAreKeywords()
    ensures forall k :: 0 <= k < |OptimizeKeywords()| ==> Keyword(OptimizeKeywords()[k])
  {
  }

  /** Trimming does not change which keywords of a list a text contains. */
  lemma ContainsAnyTrim(s: string, keywords: seq<string>)
    requires forall k :: 0 <= k < |keywords| ==> Keyword(keywords[k])
    ensures ContainsAny(Trim(s), keywords) <==> ContainsAny(s, keywords)
  {
    forall k | 0 <= k < |keywords|
      ensures Contains(Trim(s), keywords[k]) <==> Contains(s, keywords[k])
    {
      ContainsTrim(s, keywords[k]);
    }
  }

  /** A message that says "create table" and no optimisation word is a schema request. */
  lemma CreateTableIsSchema(userInput: string, ctx: ChatContext)
    requires Contains(Lower(userInput), "create table")
    requires !ContainsAny(Lower(userInput), OptimizeKeywords())
    ensures DetectIntent(userInput, ctx) == Schema
  {
    var input := Lower(userInput);
    var trimmed := Trim(input);
    assert !ContainsAny(trimmed, OptimizeKeywords()) by {
      OptimizeKeywordsAreKeywords();
      ContainsAnyTrim(input, OptimizeKeywords());
    }
    assert ContainsAny(trimmed, SchemaKeywords()) by {
      ContainsTrim(input, "create table");
      assert SchemaKeywords()[0] == "create table";
    }
  }

  /** An optimisation request that mentions a table is never answered with a
      fresh schema or a query, even when it also says "create table". */
  lemma OptimizeTableIsNeverSchema(userInput: string, ctx: ChatContext)
    requires ContainsAny(Lower(userInput), OptimizeKeywords())
    requires Contains(Lower(userInput), "table")
    ensures DetectIntent(userInput, ctx) != Schema && DetectIntent(userInput, ctx) != Query
  {
    OptimizeTableSignals(Lower(userInput));
  }

  /** Trimming keeps an optimisation word and the word "table" visible. */
  lemma OptimizeTableSignals(input: string)
    requires ContainsAny(input, OptimizeKeywords()) && Contains(input, "table")
    ensures var m := SignalsOf(Trim(input)); m.optimize && m.structure
  {
    OptimizeWordSurvivesTrim(input);
    ContainsTrim(input, "table");
    assert MentionsStructure(Trim(input));
  }

  lemma OptimizeWordSurvivesTrim(input: string)
    requires ContainsAny(input, OptimizeKeywords())
    ensures ContainsAny(Trim(input), OptimizeKeywords())
  {
    OptimizeKeywordsAreKeywords();
    ContainsAnyTrim(input, OptimizeKeywords());
  }

  /** With no schema in the chat, a message without a schema or optimisation
      keyword is always treated as conversation. */
  lemma NoSchemaMeansConversation(userInput: string, ctx: ChatContext)
    requires ctx.schemas == []
    requires !ContainsAny(Lower(userInput), SchemaKeywords())
    requires !ContainsAny(Lower(userInput), OptimizeKeywords())
    ensures DetectIntent(userInput, ctx) == Conversation
  {
    var input := Lower(userInput);
    var trimmed := Trim(input);
    assert !ContainsAny(trimmed, OptimizeKeywords()) && !ContainsAny(trimmed, SchemaKeywords()) by {
      OptimizeKeywordsAreKeywords();
      SchemaKeywordsAreKeywords();
      ContainsAnyTrim(input, OptimizeKeywords());
      ContainsAnyTrim(input, SchemaKeywords());
    }
  }

  /** An optimisation word alone, with no earlier query to improve and no
      mention of a schema or table, never yields an optimisation intent. */
  lemma BareOptimizeWithoutQueries(userInput: string, ctx: ChatContext)
    requires ctx.queries == []
    requires !Contains(Lower(userInput), "schema") && !Contains(Lower(userInput), "table")
    ensures DetectIntent(userInput, ctx) != OptimizeQuery && DetectIntent(userInput, ctx) != OptimizeSchema
  {
    var input := Lower(userInput);
    var trimmed := Trim(input);
    assert !MentionsStructure(trimmed) by {
      ContainsTrim(input, "schema");
      ContainsTrim(input, "table");
    }
  }

  /** The label of every detected intent is one the system-instruction
      builder accepts for the same context. */
  lemma DetectedIntentIsBuildable(userInput: string, ctx: ChatContext)
    ensures InstructionDefined(ctx, DetectIntent(userInput, ctx).Label())
  {
  }

  // ---------------------------------------------------------------------------
  // System instruction
  // ---------------------------------------------------------------------------
  // The prompt text is written as short literals joined by `+`: proofs about
  // what a long single literal contains cost the solver far more.

  function Preamble(): string {
    "You are an " + "expert MySQL " + "database " + "assistant. " + "You help " + "users create " + "database " + "schemas and " + "write SQL " + "queries.\n\n"
  }

  function SchemaHeading(): string {
    "CURRENT DATABASE SCHEMA:\n"
  }

  function NoSchemaYet(): string {
    "No database " + "schema has " + "been created " + "yet.\n\n"
  }

  /** The marker that separates the explanation from the SQL in a reply. */
  function SqlMarker(): string {
    "SQL:"
  }

  /** The reply layout every SQL-producing task asks for: an introduction,
      a blank line, the marker line and then the SQL. */
  function ResponseFormat(intro: string, placeholder: string): string {
    "FORMAT YOUR " + "RESPONSE " + "EXACTLY LIKE " + "THIS:\n" + intro + "\n\n" + SqlMarker() + "\n" + placeholder
  }

  function SchemaTaskBody(): string {
    Join([
      "TASK: " + "Generate " + "CREATE TABLE " + "statement(s) " + "for MySQL.",
      "INSTRUCTIONS:",
      "- Start with " + "a friendly " + "conversational " + "response (1-2 " + "sentences) "
        + "about what " + "you're " + "creating",
      "- Example: " + "\"Here's your " + "database " + "schema for " + "the employee "
        + "management " + "system:\" or " + "\"I've created " + "the following " + "tables for "
        + "your " + "inventory " + "system:\"",
      "- generate " + "the response " + "how chatgpt " + "and claude " + "will genrate "
        + "sql with some " + "logical and " + "informative " + "text related " + "to this or "
        + "questions or " + "any guidance " + "that you want " + "to give the " + "user on the "
        + "business " + "logic given " + "by user",
      "- Then " + "provide the " + "SQL statements",
      "- Analyze the " + "business " + "requirement " + "carefully",
      "- Generate " + "complete, " + "production-ready " + "MySQL table(s)",
      "- Include " + "PRIMARY KEY, " + "FOREIGN KEY " + "constraints",
      "- Use " + "appropriate " + "data types " + "(INT, " + "VARCHAR, " + "TEXT, " + "DECIMAL, "
        + "DATE, " + "TIMESTAMP, " + "ENUM)",
      "- Add NOT " + "NULL, UNIQUE, " + "DEFAULT " + "constraints " + "where " + "appropriate",
      "- Add indexes " + "for " + "performance " + "(INDEX on " + "foreign keys)",
      "- If multiple " + "tables are " + "needed, " + "generate all " + "of them"
    ], "\n") + "\n\n"
  }

  function QueryTaskBody(): string {
    Join([
      "TASK: Convert " + "natural " + "language to a " + "MySQL SELECT " + "query.",
      "INSTRUCTIONS:",
      "- Start with " + "a friendly " + "conversational " + "response (1-2 " + "sentences) "
        + "about what " + "you're " + "creating",
      "- generate " + "response how " + "chatgpt and " + "claude will " + "genrate sql "
        + "with some " + "logical and " + "informative " + "text related " + "to query or "
        + "questions or " + "any guidance " + "that you want " + "to give the " + "user on the "
        + "query",
      "- Start with " + "a brief " + "conversational " + "response (1 " + "sentence) "
        + "about what " + "the query does",
      "- Example: " + "\"Here's a " + "query to get " + "the average " + "performance "
        + "score for " + "each " + "employee:\" or " + "\"This query " + "will show you "
        + "the top 10 " + "products:\"",
      "- Then " + "provide the " + "SQL query",
      "- Use ONLY " + "the existing " + "tables from " + "the current " + "schema",
      "- Write " + "optimized, " + "production-ready " + "SQL",
      "- Use proper " + "JOINs if " + "multiple " + "tables needed",
      "- Add WHERE, " + "GROUP BY, " + "ORDER BY, " + "LIMIT as " + "appropriate"
    ], "\n") + "\n\n"
  }

  function OptimizeQueryBody(): string {
    "\n\n" + Join([
      "INSTRUCTIONS:",
      "- Start with " + "a friendly " + "conversational " + "response (1-2 " + "sentences) "
        + "about what " + "you're " + "creating",
      "- generate " + "response how " + "chatgpt and " + "claude will " + "genrate sql "
        + "with some " + "logical and " + "informative " + "text related " + "to " + "optimization "
        + "or questions " + "or any " + "guidance that " + "you want to " + "give the user "
        + "on the " + "optimization",
      "- Start with " + "explanation " + "of what you " + "optimized " + "(1-2 " + "sentences)",
      "- Example: " + "\"I've " + "optimized " + "your query by " + "adding proper "
        + "indexes and " + "using a more " + "efficient " + "JOIN:\" or " + "\"Here's the "
        + "improved " + "version with " + "better " + "performance:\"",
      "- Then " + "provide the " + "optimized SQL",
      "- Improve the " + "query based " + "on user's " + "request",
      "- Add indexes " + "suggestions " + "if needed (as " + "SQL comments)",
      "- Optimize " + "JOINs, " + "subqueries, " + "or add CTEs " + "if beneficial",
      "- Maintain " + "the same " + "result but " + "improve " + "performance"
    ], "\n") + "\n\n"
  }

  function OptimizeSchemaBody(): string {
    "\n\n" + Join([
      "INSTRUCTIONS:",
      "- Start with " + "a friendly " + "conversational " + "response (1-2 " + "sentences) "
        + "about what " + "you're " + "creating",
      "- generate " + "response how " + "chatgpt and " + "claude will " + "genrate sql "
        + "with some " + "logical and " + "informative " + "text related " + "to " + "optimization "
        + "or questions " + "or any " + "guidance that " + "you want to " + "give the user "
        + "on the " + "optimization",
      "- Start with " + "explanation " + "of " + "improvements " + "(1-2 " + "sentences)",
      "- Example: " + "\"I've " + "improved your " + "schema by " + "adding " + "missing "
        + "indexes and " + "constraints:\" " + "or \"Here's " + "the optimized " + "version with "
        + "better " + "normalization:\"",
      "- Then " + "provide the " + "improved SQL",
      "- Improve the " + "schema based " + "on user's " + "request",
      "- Add missing " + "indexes, " + "constraints, " + "or " + "relationships",
      "- Suggest " + "better data " + "types if " + "applicable",
      "- Add " + "normalization " + "if needed"
    ], "\n") + "\n\n"
  }

  /** The lines of the conversation task; the first is its "TASK:" label
      followed by the topic. */
  function ConversationLines(): seq<string> {
    [
      "TASK:" + (" Have a " + "helpful " + "conversation " + "about " + "databases and " + "SQL."),
      "INSTRUCTIONS:",
      "- Be " + "conversational, " + "friendly, and " + "helpful",
      "- If user is " + "planning to " + "build " + "something, " + "ask " + "clarifying "
        + "questions",
      "- If " + "discussing " + "database " + "design, " + "provide " + "expert advice",
      "- Keep " + "responses " + "concise (4-5 " + "paragraphs " + "max)",
      "- Don't " + "generate SQL " + "unless " + "explicitly " + "asked"
    ]
  }

  function ConversationTask(): string {
    Join(ConversationLines(), "\n")
  }

  /** The conversation task never asks the model for the marker. */
  lemma ConversationTaskHasNoMarker(ctx: ChatContext)
    ensures !Contains(TaskBlock(ctx, "conversation"), SqlMarker())
  {
    ConversationLinesHaveNoMarker();
    JoinNoOccurrence(ConversationLines(), "\n", SqlMarker());
  }

  /** No line of the conversation task holds the marker. */
  lemma ConversationLinesHaveNoMarker()
    ensures forall k :: 0 <= k < |ConversationLines()| ==> !Contains(ConversationLines()[k], SqlMarker())
  {
    var lines := ConversationLines();
    forall k | 0 <= k < |lines| ensures !Contains(lines[k], SqlMarker()) {
      if k == 0 {
        ConversationHeadHasNoMarker();
      } else if k == 1 {
        MissingCharNoOccurrence(lines[1], SqlMarker(), 'Q');
      } else {
        AdviceLineHasNoColon(k);
        MissingCharNoOccurrence(lines[k], SqlMarker(), ':');
      }
    }
  }

  /** The advice lines after "INSTRUCTIONS:" hold no colon, each checked
      on its own. */
  lemma AdviceLineHasNoColon(k: nat)
    requires 2 <= k < |ConversationLines()|
    ensures ':' !in ConversationLines()[k]
  {
    if k == 2 {
      NoColonInLine2();
    } else if k == 3 {
      NoColonInLine3();
    } else if k == 4 {
      NoColonInLine4();
    } else if k == 5 {
      NoColonInLine5();
    } else {
      NoColonInLine6();
    }
  }

  lemma NoColonInLine2()
    ensures ':' !in ConversationLines()[2]
  {
  }

  lemma NoColonInLine3()
    ensures ':' !in ConversationLines()[3]
  {
  }

  lemma NoColonInLine4()
    ensures ':' !in ConversationLines()[4]
  {
  }

  lemma NoColonInLine5()
    ensures ':' !in ConversationLines()[5]
  {
  }

  lemma NoColonInLine6()
    ensures ':' !in ConversationLines()[6]
  {
  }

  /** The label "TASK:" has no 'Q' and the topic after it no colon, and the
      marker cannot start at the label's colon. */
  lemma ConversationHeadHasNoMarker()
    ensures !Contains(ConversationLines()[0], SqlMarker())
  {
    var head := ConversationLines()[0];
    var topic := head[5..];
    assert head == "TASK:" + topic;
    MissingCharNoOccurrence("TASK:", SqlMarker(), 'Q');
    MissingCharNoOccurrence(topic, SqlMarker(), ':');
    ConcatNoOccurrence("TASK:", topic, SqlMarker());
  }

  /** The labels for which the instruction would dereference a missing last
      query or last schema are excluded. */
  predicate InstructionDefined(ctx: ChatContext, intent: string) {
    && (intent == "optimize_query" ==> ctx.queries != [])
    && (intent == "optimize_schema" ==> ctx.schemas != [])
  }

  /** The comment line that introduces a stored schema: its description, or
      its table name when the description is empty. */
  function SchemaHeader(s: SchemaRecord): string {
    if s.description != "" then s.description else "Table: " + s.tableName
  }

  /** One stored schema as it appears in the instruction. */
  function SchemaEntry(s: SchemaRecord): string {
    ("-- " + SchemaHeader(s) + "\n") + (s.sqlStatement + "\n\n")
  }

  /** The entries of all schemas, in stored order. */
  function SchemaEntries(ss: seq<SchemaRecord>): string {
    if ss == [] then [] else SchemaEntries(ss[..|ss| - 1]) + SchemaEntry(ss[|ss| - 1])
  }

  function TableNames(ss: seq<SchemaRecord>): (r: seq<string>)
    ensures |r| == |ss| && forall k :: 0 <= k < |ss| ==> r[k] == ss[k].tableName
  {
    seq(|ss|, k requires 0 <= k < |ss| => ss[k].tableName)
  }

  /** The line listing every stored table name. */
  function TablesLine(ss: seq<SchemaRecord>): string {
    "Available Tables: " + Join(TableNames(ss), ", ") + "\n\n"
  }

  /** The schema part of the instruction. */
  function SchemaSection(ss: seq<SchemaRecord>): string {
    if ss == [] then NoSchemaYet()
    else SchemaHeading() + SchemaEntries(ss) + TablesLine(ss)
  }

  /** The four intents whose task asks the model for SQL. */
  predicate ProducesSql(intent: string) {
    intent == "schema" || intent == "query" || intent == "optimize_query" || intent == "optimize_schema"
  }

  /** The TASK text of a SQL-producing intent up to its response layout:
      the fixed instructions, with the last query or the last schema spliced
      in for the two optimisation intents. */
  function TaskLead(ctx: ChatContext, intent: string): string
    requires InstructionDefined(ctx, intent) && ProducesSql(intent)
  {
    if intent == "schema" then SchemaTaskBody()
    else if intent == "query" then QueryTaskBody()
    else if intent == "optimize_query" then OptimizeQueryLead(ctx.queries[|ctx.queries| - 1])
    else OptimizeSchemaLead(ctx.schemas[|ctx.schemas| - 1])
  }

  /** The query-optimisation task: the previous query's SQL and request,
      then the fixed instructions. */
  function OptimizeQueryLead(last: QueryRecord): string {
    "TASK: Optimize the " + "previous SQL query.\n" + "Previous Query: " + last.generatedSql
      + "\nPrevious Request: " + last.naturalLanguage + OptimizeQueryBody()
  }

  /** The schema-optimisation task: the last schema's SQL, then the fixed
      instructions. */
  function OptimizeSchemaLead(last: SchemaRecord): string {
    "TASK: Optimize the " + "database schema.\n" + "Current Schema: " + last.sqlStatement + OptimizeSchemaBody()
  }

  /** The introduction placeholder in the response layout of an intent. */
  function ExampleIntro(intent: string): string
    requires ProducesSql(intent)
  {
    if intent == "schema" || intent == "query" then "[Your friendly " + "intro text here]"
    else if intent == "optimize_query" then "[Your " + "explanation of " + "optimization]"
    else "[Your " + "explanation of " + "improvements]"
  }

  /** The SQL placeholder in the response layout of an intent. */
  function ExampleSql(intent: string): string
    requires ProducesSql(intent)
  {
    if intent == "schema" then "[SQL statements " + "here]"
    else if intent == "query" then "[SQL query here]"
    else if intent == "optimize_query" then "[Optimized SQL " + "query here]"
    else "[Improved SQL " + "statements here]"
  }

  /** The `switch` on the intent: the TASK text appended after the schema
      part. A label outside the five appends nothing. */
  function TaskBlock(ctx: ChatContext, intent: string): string
    requires InstructionDefined(ctx, intent)
  {
    if ProducesSql(intent) then TaskLead(ctx, intent) + ResponseFormat(ExampleIntro(intent), ExampleSql(intent))
    else if intent == "conversation" then ConversationTask()
    else []
  }

  /** The whole system instruction for a context and an intent. */
  function SystemInstruction(ctx: ChatContext, intent: string): string
    requires InstructionDefined(ctx, intent)
  {
    Preamble() + SchemaSection(ctx.schemas) + TaskBlock(ctx, intent)
  }

  /** The `forEach` over the stored schemas: appends one entry per schema. */
  method AppendSchemaEntries(start: string, schemas: seq<SchemaRecord>) returns (prompt: string)
    ensures prompt == start + SchemaEntries(schemas)
  {
    prompt := start;
    var i := 0;
    while i < |schemas|
      invariant 0 <= i <= |schemas|
      invariant prompt == start + SchemaEntries(schemas[..i])
    {
      var s := schemas[i];
      ghost var before := prompt;
      prompt := prompt + ("-- " + (if s.description != "" then s.description else "Table: " + s.tableName) + "\n");
      prompt := prompt + (s.sqlStatement + "\n\n");
      AppendAssoc(before, "-- " + SchemaHeader(s) + "\n", s.sqlStatement + "\n\n");
      assert prompt == before + SchemaEntry(s);
      assert schemas[..i + 1][..i] == schemas[..i];
      assert SchemaEntries(schemas[..i + 1]) == SchemaEntries(schemas[..i]) + SchemaEntry(s);
      AppendAssoc(start, SchemaEntries(schemas[..i]), SchemaEntry(s));
      i := i + 1;
    }
    assert schemas[..i] == schemas;
  }

  /** Builds the system instruction by appending the preamble, one entry per
      stored schema, the table list or the no-schema notice, and the TASK block. */
  method BuildSystemInstruction(ctx: ChatContext, intent: string) returns (prompt: string)
    requires InstructionDefined(ctx, intent)
    ensures prompt == SystemInstruction(ctx, intent)
  {
    var schemas := ctx.schemas;
    prompt := Preamble();
    if |schemas| > 0 {
      prompt := prompt + SchemaHeading();
      prompt := AppendSchemaEntries(prompt, schemas);
      prompt := prompt + ("Available Tables: " + Join(TableNames(schemas), ", ") + "\n\n");
      assert prompt == Preamble() + SchemaSection(schemas) by {
        AppendAssoc(Preamble(), SchemaHeading(), SchemaEntries(schemas));
        AppendAssoc(Preamble(), SchemaHeading() + SchemaEntries(schemas), TablesLine(schemas));
      }
    } else {
      prompt := prompt + NoSchemaYet();
    }
    prompt := prompt + TaskBlock(ctx, intent);
  }

  // ---------------------------------------------------------------------------
  // Properties of the system instruction
  // ---------------------------------------------------------------------------

  predicate StartsWith(s: string, prefix: string) {
    |prefix| <= |s| && s[..|prefix|] == prefix
  }

  /** Whatever task follows, the text opens with the preamble, and the
      no-schema notice follows it exactly when there is no stored schema. */
  lemma NoticeIffEmpty(ss: seq<SchemaRecord>, task: string)
    ensures StartsWith(Preamble() + SchemaSection(ss) + task, Preamble())
    ensures StartsWith(Preamble() + SchemaSection(ss) + task, Preamble() + NoSchemaYet()) <==> ss == []
  {
    var pre := Preamble();
    var p := pre + SchemaSection(ss) + task;
    var rest := SchemaSection(ss) + task;
    assert p == pre + rest by {
      AppendAssoc(pre, SchemaSection(ss), task);
    }
    assert StartsWith(p, pre);
    if ss == [] {
      assert p == (pre + NoSchemaYet()) + task;
    } else {
      assert rest[0] == 'C' by {
        assert SchemaSection(ss)[0] == SchemaHeading()[0];
      }
      assert NoSchemaYet()[0] == 'N';
      DivergesAfter(pre, rest, NoSchemaYet());
    }
  }

  /** Two texts that share a prefix and then differ in their next character
      do not start with one another. */
  lemma DivergesAfter(pre: string, rest: string, other: string)
    requires rest != [] && other != [] && rest[0] != other[0]
    ensures !StartsWith(pre + rest, pre + other)
  {
    assert (pre + rest)[|pre|] == rest[0];
    assert (pre + other)[|pre|] == other[0];
  }

  /** The instruction opens with the preamble, and the no-schema notice
      follows it exactly when the chat has no stored schema. */
  lemma NoSchemaNoticeIffEmpty(ctx: ChatContext, intent: string)
    requires InstructionDefined(ctx, intent)
    ensures StartsWith(SystemInstruction(ctx, intent), Preamble())
    ensures StartsWith(SystemInstruction(ctx, intent), Preamble() + NoSchemaYet()) <==> ctx.schemas == []
  {
    NoticeIffEmpty(ctx.schemas, TaskBlock(ctx, intent));
  }

  /** Every stored schema's entry occurs in the concatenated entries. */
  lemma {:induction false} EntriesContainEntry(ss: seq<SchemaRecord>, k: nat)
    requires k < |ss|
    ensures Contains(SchemaEntries(ss), SchemaEntry(ss[k]))
    decreases |ss|
  {
    var init := ss[..|ss| - 1];
    var last := SchemaEntry(ss[|ss| - 1]);
    assert SchemaEntries(ss) == SchemaEntries(init) + last;
    if k == |ss| - 1 {
      ContainsSelf(last);
      ContainsInSuffix(SchemaEntries(init), last, last);
    } else {
      EntriesContainEntry(init, k);
      assert init[k] == ss[k];
      ContainsInPrefix(SchemaEntries(init), last, SchemaEntry(ss[k]));
    }
  }

  /** The schema part shows every stored schema: its header line (the
      description, or "Table: " and the name), its SQL text, and its table
      name in the list of available tables. */
  lemma SectionShowsSchema(ss: seq<SchemaRecord>, k: nat)
    requires k < |ss|
    ensures Contains(SchemaSection(ss), SchemaHeader(ss[k]))
    ensures Contains(SchemaSection(ss), ss[k].sqlStatement)
    ensures Contains(SchemaSection(ss), ss[k].tableName)
  {
    var s := ss[k];
    var section := SchemaSection(ss);
    var entry := SchemaEntry(s);
    assert Contains(section, entry) by {
      EntriesContainEntry(ss, k);
      ContainsInPart(SchemaHeading(), SchemaEntries(ss), TablesLine(ss), entry);
    }
    assert Contains(entry, SchemaHeader(s)) by {
      ContainsSelf(SchemaHeader(s));
      ContainsInPart("-- ", SchemaHeader(s), "\n" + (s.sqlStatement + "\n\n"), SchemaHeader(s));
      AppendAssoc("-- " + SchemaHeader(s), "\n", s.sqlStatement + "\n\n");
    }
    assert Contains(entry, s.sqlStatement) by {
      ContainsSelf(s.sqlStatement);
      ContainsInPart("-- " + SchemaHeader(s) + "\n", s.sqlStatement, "\n\n", s.sqlStatement);
      AppendAssoc("-- " + SchemaHeader(s) + "\n", s.sqlStatement, "\n\n");
    }
    assert Contains(section, s.tableName) by {
      JoinContainsPart(TableNames(ss), ", ", k);
      ContainsInPart("Available Tables: ", Join(TableNames(ss), ", "), "\n\n", s.tableName);
      ContainsInPart(SchemaHeading() + SchemaEntries(ss), TablesLine(ss), [], s.tableName);
      assert SchemaHeading() + SchemaEntries(ss) + TablesLine(ss) + [] == section;
    }
    ContainsTrans(section, entry, SchemaHeader(s));
    ContainsTrans(section, entry, s.sqlStatement);
  }

  /** The instruction shows every stored schema: its header line, its SQL
      text, and its table name in the list of available tables. */
  lemma InstructionShowsEverySchema(ctx: ChatContext, intent: string, k: nat)
    requires InstructionDefined(ctx, intent) && k < |ctx.schemas|
    ensures Contains(SystemInstruction(ctx, intent), SchemaHeader(ctx.schemas[k]))
    ensures Contains(SystemInstruction(ctx, intent), ctx.schemas[k].sqlStatement)
    ensures Contains(SystemInstruction(ctx, intent), ctx.schemas[k].tableName)
  {
    var s := ctx.schemas[k];
    var section := SchemaSection(ctx.schemas);
    var task := TaskBlock(ctx, intent);
    SectionShowsSchema(ctx.schemas, k);
    ContainsInPart(Preamble(), section, task, SchemaHeader(s));
    ContainsInPart(Preamble(), section, task, s.sqlStatement);
    ContainsInPart(Preamble(), section, task, s.tableName);
  }

  /** A task text that ends in the response layout asks for the marker
      that the reply parser splits on. */
  lemma FormattedTaskHasMarker(body: string, intro: string, placeholder: string)
    ensures Contains(body + ResponseFormat(intro, placeholder), SqlMarker())
  {
    var head := "FORMAT YOUR " + "RESPONSE " + "EXACTLY LIKE " + "THIS:\n" + intro + "\n\n";
    assert Contains(SqlMarker() + ("\n" + placeholder), SqlMarker()) by {
      ContainsSelf(SqlMarker());
      ContainsInPrefix(SqlMarker(), "\n" + placeholder, SqlMarker());
    }
    assert Contains(ResponseFormat(intro, placeholder), SqlMarker()) by {
      ContainsInSuffix(head, SqlMarker() + ("\n" + placeholder), SqlMarker());
      AppendAssoc(head, SqlMarker(), "\n" + placeholder);
      AppendAssoc(head + SqlMarker(), "\n", placeholder);
    }
    ContainsInSuffix(body, ResponseFormat(intro, placeholder), SqlMarker());
  }

  /** The TASK block of each SQL-producing intent asks for the marker. */
  lemma TaskAsksForMarker(ctx: ChatContext, intent: string)
    requires InstructionDefined(ctx, intent) && ProducesSql(intent)
    ensures Contains(TaskBlock(ctx, intent), SqlMarker())
  {
    FormattedTaskHasMarker(TaskLead(ctx, intent), ExampleIntro(intent), ExampleSql(intent));
  }

  /** The four SQL-producing intents ask the model to put its SQL after the
      "SQL:" marker that the reply parser splits on. */
  lemma SqlTasksAskForMarker(ctx: ChatContext, intent: string)
    requires InstructionDefined(ctx, intent)
    ensures ProducesSql(intent) ==> Contains(SystemInstruction(ctx, intent), SqlMarker())
  {
    if ProducesSql(intent) {
      TaskAsksForMarker(ctx, intent);
      ContainsInSuffix(Preamble() + SchemaSection(ctx.schemas), TaskBlock(ctx, intent), SqlMarker());
    }
  }

  /** A label outside the five adds no task: the instruction is the preamble
      and the schema part alone. */
  lemma UnknownIntentAddsNothing(ctx: ChatContext, intent: string)
    requires !ProducesSql(intent) && intent != "conversation"
    ensures SystemInstruction(ctx, intent) == Preamble() + SchemaSection(ctx.schemas)
  {
  }

  /** The TASK block asks for the marker exactly for the four SQL-producing
      intents: the conversation task and an unknown label never do. */
  lemma TaskBlockMarkerIff(ctx: ChatContext, intent: string)
    requires InstructionDefined(ctx, intent)
    ensures Contains(TaskBlock(ctx, intent), SqlMarker()) <==> ProducesSql(intent)
  {
    if ProducesSql(intent) {
      TaskAsksForMarker(ctx, intent);
    } else if intent == "conversation" {
      ConversationTaskHasNoMarker(ctx);
    } else {
      MissingCharNoOccurrence(TaskBlock(ctx, intent), SqlMarker(), ':');
    }
  }

  /** The query-optimisation task quotes the last stored query: its SQL and
      the request that produced it. */
  lemma OptimizeQueryQuotesLast(ctx: ChatContext)
    requires ctx.queries != []
    ensures Contains(SystemInstruction(ctx, "optimize_query"), ctx.queries[|ctx.queries| - 1].generatedSql)
    ensures Contains(SystemInstruction(ctx, "optimize_query"), ctx.queries[|ctx.queries| - 1].naturalLanguage)
  {
    var last := ctx.queries[|ctx.queries| - 1];
    QueryLeadQuotes(last);
    QuotedInInstruction(ctx, "optimize_query", last.generatedSql);
    QuotedInInstruction(ctx, "optimize_query", last.naturalLanguage);
  }

  lemma QueryLeadQuotes(last: QueryRecord)
    ensures Contains(OptimizeQueryLead(last), last.generatedSql)
    ensures Contains(OptimizeQueryLead(last), last.naturalLanguage)
  {
    var a := "TASK: Optimize the " + "previous SQL query.\n" + "Previous Query: ";
    var b := "\nPrevious Request: ";
    QuotedFirst(a, last.generatedSql, b, last.naturalLanguage, OptimizeQueryBody());
    QuotedAfter(a + last.generatedSql + b, last.naturalLanguage, OptimizeQueryBody());
  }

  /** The schema-optimisation task quotes the last stored schema's SQL. */
  lemma OptimizeSchemaQuotesLast(ctx: ChatContext)
    requires ctx.schemas != []
    ensures Contains(SystemInstruction(ctx, "optimize_schema"), ctx.schemas[|ctx.schemas| - 1].sqlStatement)
  {
    var last := ctx.schemas[|ctx.schemas| - 1];
    SchemaLeadQuotes(last);
    QuotedInInstruction(ctx, "optimize_schema", last.sqlStatement);
  }

  lemma SchemaLeadQuotes(last: SchemaRecord)
    ensures Contains(OptimizeSchemaLead(last), last.sqlStatement)
  {
    QuotedAfter("TASK: Optimize the " + "database schema.\n" + "Current Schema: ", last.sqlStatement, OptimizeSchemaBody());
  }

  /** A text placed between a prefix and a suffix occurs in the result. */
  lemma QuotedAfter(a: string, x: string, rest: string)
    ensures Contains(a + x + rest, x)
  {
    ContainsSelf(x);
    ContainsInSuffix(a, x, x);
    ContainsInPrefix(a + x, rest, x);
  }

  /** The same, for a text followed by three more pieces. */
  lemma QuotedFirst(a: string, x: string, b: string, c: string, d: string)
    ensures Contains(a + x + b + c + d, x)
  {
    QuotedAfter(a, x, b);
    ContainsInPrefix(a + x + b, c, x);
    ContainsInPrefix(a + x + b + c, d, x);
  }

  /** Text found in the lead of a SQL-producing task is found in the
      instruction. */
  lemma QuotedInInstruction(ctx: ChatContext, intent: string, part: string)
    requires InstructionDefined(ctx, intent) && ProducesSql(intent)
    requires Contains(TaskLead(ctx, intent), part)
    ensures Contains(SystemInstruction(ctx, intent), part)
  {
    var lead := TaskLead(ctx, intent);
    var format := ResponseFormat(ExampleIntro(intent), ExampleSql(intent));
    ContainsInPrefix(lead, format, part);
    ContainsInSuffix(Preamble() + SchemaSection(ctx.schemas), lead + format, part);
  }

  // ---------------------------------------------------------------------------
  // Chat history
  // ---------------------------------------------------------------------------

  /** One turn of the model's chat history: a role and its text parts. */
  datatype HistoryEntry = HistoryEntry(role: string, parts: seq<string>)

  /** The model's name for a stored role: assistant turns are the model's,
      system turns stay system turns, and every other role is the user's. */
  function GeminiRole(role: string): string {
    if role == "assistant" then "model"
    else if role == "system" then "system"
    else "user"
  }

  /** Stored messages in order, each as one history turn holding its text. */
  function BuildChatHistory(messages: seq<Message>): (r: seq<HistoryEntry>)
    ensures |r| == |messages|
    ensures forall k :: 0 <= k < |r| ==> r[k].parts == [messages[k].content]
    ensures forall k :: 0 <= k < |r| ==> r[k].role in {"user", "model", "system"}
  {
    seq(|messages|, k requires 0 <= k < |messages| =>
      HistoryEntry(GeminiRole(messages[k].role), [messages[k].content]))
  }

  /** The three roles the store writes. */
  predicate StoredRole(role: string) {
    role == "user" || role == "assistant" || role == "system"
  }

  /** The stored role a history role stands for. */
  function StoredRoleOf(role: string): string {
    if role == "model" then "assistant" else role
  }

  /** Reading the history back as messages. */
  function HistoryMessages(history: seq<HistoryEntry>): seq<Message>
    requires forall k :: 0 <= k < |history| ==> |history[k].parts| == 1
  {
    seq(|history|, k requires 0 <= k < |history| =>
      Message(StoredRoleOf(history[k].role), history[k].parts[0]))
  }

  /** For messages with stored roles, the history loses nothing: reading it
      back gives the same messages. */
  lemma HistoryRoundTrip(messages: seq<Message>)
    requires forall k :: 0 <= k < |messages| ==> StoredRole(messages[k].role)
    ensures HistoryMessages(BuildChatHistory(messages)) == messages
  {
    var h := BuildChatHistory(messages);
    forall k | 0 <= k < |messages|
      ensures HistoryMessages(h)[k] == messages[k]
    {
      assert StoredRoleOf(GeminiRole(messages[k].role)) == messages[k].role;
    }
  }

  /** A role outside the stored three is sent as the user's. */
  lemma UnknownRoleIsUser(messages: seq<Message>, k: nat)
    requires k < |messages| && !StoredRole(messages[k].role)
    ensures BuildChatHistory(messages)[k].role == "user"
  {
  }

  /** The history of two runs of messages is the two histories in sequence. */
  lemma HistoryOfAppend(a: seq<Message>, b: seq<Message>)
    ensures BuildChatHistory(a + b) == BuildChatHistory(a) + BuildChatHistory(b)
  {
  }

  // ---------------------------------------------------------------------------
  // Fence stripping
  // ---------------------------------------------------------------------------

  /** Deletes every "```sql" (any letter case), then every remaining "```",
      then trims. */
  function CleanSqlResponse(text: string): string {
    Trim(RemoveAll(RemoveAll(text, "```sql", true), "```", false))
  }

  /** No code fence survives the cleaning, and the result is trimmed. */
  lemma CleanedHasNoFence(text: string)
    ensures !Contains(CleanSqlResponse(text), "```")
    ensures CleanSqlResponse(text) != [] ==>
      !IsSpace(CleanSqlResponse(text)[0]) && !IsSpace(CleanSqlResponse(text)[|CleanSqlResponse(text)| - 1])
  {
    var u := RemoveAll(RemoveAll(text, "```sql", true), "```", false);
    RemoveFenceComplete(RemoveAll(text, "```sql", true));
    TrimAddsNothing(u, "```");
    TrimSlice(u);
  }

  /** A reply without a backtick is only trimmed. */
  lemma CleanWithoutBackticks(text: string)
    requires '`' !in text
    ensures CleanSqlResponse(text) == Trim(text)
  {
    RemoveAllUntouched(text, "```sql", true);
    RemoveAllUntouched(text, "```", false);
  }

  /** Cleaning twice is cleaning once. */
  lemma CleanIdempotent(text: string)
    ensures CleanSqlResponse(CleanSqlResponse(text)) == CleanSqlResponse(text)
  {
    var t := CleanSqlResponse(text);
    CleanedHasNoFence(text);
    SqlFenceAbsent(t);
    RemoveAllAbsent(t, "```");
    TrimOfTrimmed(t);
  }

  /** Without a plain fence there is no "```sql" in any letter case either. */
  lemma {:induction false} SqlFenceAbsent(s: string)
    requires !Contains(s, "```")
    ensures RemoveAll(s, "```sql", true) == s
    decreases |s|
  {
    if |s| >= 6 {
      SqlFenceOpensWithFence(s);
      assert !OccursAt(s, "```", 0);
      AbsentFromSlice(s, 1, |s|, "```");
      assert s[1..|s|] == s[1..];
      SqlFenceAbsent(s[1..]);
      assert s == [s[0]] + s[1..];
    }
  }

  /** "```sql" in any letter case begins with a plain fence. */
  lemma SqlFenceOpensWithFence(s: string)
    ensures StartsWithPat(s, "```sql", true) ==> OccursAt(s, "```", 0)
  {
    if StartsWithPat(s, "```sql", true) {
      forall k | 0 <= k < 3 ensures s[k] == '`' {
        assert Lower(s[..6])[k] == LowerChar(s[k]);
      }
      assert s[..3] == "```";
    }
  }

  // ---------------------------------------------------------------------------
  // CREATE TABLE names
  // ---------------------------------------------------------------------------

  /** The lower-case literal `word` at `i`, letter case ignored as the regex
      flag `i` does without `u` (ASCII letters only). */
  predicate WordAt(s: string, i: nat, word: string) {
    i + |word| <= |s| && Lower(s[i..i + |word|]) == word
  }

  /** A case-blind occurrence is an occurrence in the lower-cased text. */
  lemma WordAtLower(s: string, i: nat, word: string)
    requires WordAt(s, i, word)
    ensures OccursAt(Lower(s), word, i)
  {
    assert Lower(s)[i..i + |word|] == Lower(s[i..i + |word|]);
  }

  /** A non-empty run of `\w` characters. */
  predicate IsWord(w: string) {
    w != [] && forall k :: 0 <= k < |w| ==> IsWordChar(w[k])
  }

  /** The end of the run of white space that starts at `i`. */
  function SkipSpaces(s: string, i: nat): (j: nat)
    requires i <= |s|
    ensures i <= j <= |s| && (j == |s| || !IsSpace(s[j]))
    ensures forall k :: i <= k < j ==> IsSpace(s[k])
    decreases |s| - i
  {
    if i < |s| && IsSpace(s[i]) then SkipSpaces(s, i + 1) else i
  }

  /** The end of the run of word characters that starts at `i`. */
  function WordEnd(s: string, i: nat): (j: nat)
    requires i <= |s|
    ensures i <= j <= |s| && (j == |s| || !IsWordChar(s[j]))
    ensures forall k :: i <= k < j ==> IsWordChar(s[k])
    decreases |s| - i
  {
    if i < |s| && IsWordChar(s[i]) then WordEnd(s, i + 1) else i
  }

  /** `word\s+` at `i`: the position after the white space, taken greedily.
      Giving a space back never helps the regex, since every later step of
      the pattern starts with a character that is not white space. */
  function KeywordThenSpaces(s: string, i: nat, word: string): (r: Option<nat>)
    requires i <= |s|
    ensures r.Some? ==> WordAt(s, i, word) && i + |word| < r.value <= |s|
  {
    if WordAt(s, i, word) && i + |word| < |s| && IsSpace(s[i + |word|]) then
      Some(SkipSpaces(s, i + |word|))
    else None
  }

  /** `IF\s+NOT\s+EXISTS\s+` at `i`. */
  function IfNotExistsEnd(s: string, i: nat): (r: Option<nat>)
    requires i <= |s|
    ensures r.Some? ==> i < r.value <= |s|
  {
    match KeywordThenSpaces(s, i, "if")
    case None => None
    case Some(a) =>
      match KeywordThenSpaces(s, a, "not")
      case None => None
      case Some(b) => KeywordThenSpaces(s, b, "exists")
  }

  /** One match of the pattern: where it starts, the captured name and
      where it ends. */
  datatype TableMatch = TableMatch(start: nat, name: string, end: nat)

  /** The name lies inside the match, after its start. */
  predicate NameInside(s: string, m: TableMatch) {
    exists p :: m.start < p && p + |m.name| <= m.end && OccursAt(s, m.name, p)
  }

  /** `` `?(\w+)`? `` at `i` for a match that started at `start`. An opening
      backtick not followed by a word character is given back, and then the
      name cannot start at the backtick either. */
  function Capture(s: string, start: nat, i: nat): (r: Option<TableMatch>)
    requires start < i <= |s|
    ensures r.Some? ==> r.value.start == start && IsWord(r.value.name) && i < r.value.end <= |s|
    ensures r.Some? ==> NameInside(s, r.value)
  {
    var j := if i < |s| && s[i] == '`' then i + 1 else i;
    var e := WordEnd(s, j);
    if e == j then None
    else
      var m := TableMatch(start, s[j..e], if e < |s| && s[e] == '`' then e + 1 else e);
      assert OccursAt(s, m.name, j);
      Some(m)
  }

  /** The pattern anchored at `i`: "CREATE TABLE" and white space, then the
      optional `IF NOT EXISTS` group, which is tried first and abandoned when
      no name can follow it. */
  function MatchAt(s: string, i: nat): (r: Option<TableMatch>)
    requires i <= |s|
    ensures r.Some? ==> WordAt(s, i, "create table") && r.value.start == i
    ensures r.Some? ==> IsWord(r.value.name) && i < r.value.end <= |s| && NameInside(s, r.value)
  {
    match KeywordThenSpaces(s, i, "create table")
    case None => None
    case Some(a) =>
      var grouped := match IfNotExistsEnd(s, a) case None => None case Some(b) => Capture(s, i, b);
      if grouped.Some? then grouped else Capture(s, i, a)
  }

  /** The leftmost match at or after `i`. */
  function FirstMatchFrom(s: string, i: nat): (r: Option<TableMatch>)
    requires i <= |s|
    ensures r.Some? ==> i <= r.value.start <= |s| && MatchAt(s, r.value.start) == r
    ensures forall k :: i <= k <= |s| && (r.None? || k < r.value.start) ==> MatchAt(s, k).None?
    decreases |s| - i
  {
    if MatchAt(s, i).Some? then MatchAt(s, i)
    else if i == |s| then None
    else FirstMatchFrom(s, i + 1)
  }

  /** The captured names of successive matches, each search resuming where
      the previous match ended. */
  function ExtractAllFrom(s: string, i: nat): (r: seq<string>)
    requires i <= |s|
    ensures forall k :: 0 <= k < |r| ==> IsWord(r[k]) && Contains(s, r[k])
    decreases |s| - i
  {
    match FirstMatchFrom(s, i)
    case None => []
    case Some(m) =>
      NameInsideContains(s, m);
      [m.name] + ExtractAllFrom(s, m.end)
  }

  lemma NameInsideContains(s: string, m: TableMatch)
    requires NameInside(s, m)
    ensures Contains(s, m.name)
  {
    var p :| m.start < p && p + |m.name| <= m.end && OccursAt(s, m.name, p);
    OccurrenceContains(s, m.name, p);
  }

  /** The names of all CREATE TABLE statements, in order. */
  function ExtractAllTableNames(sql: string): seq<string> {
    ExtractAllFrom(sql, 0)
  }

  /** The name of the first CREATE TABLE statement, or "unknown_table". */
  function ExtractTableName(sql: string): string {
    match FirstMatchFrom(sql, 0)
    case None => "unknown_table"
    case Some(m) => m.name
  }

  /** The single-name extraction agrees with the first of all names, and
      falls back to "unknown_table" when there is none. */
  lemma FirstNameAgrees(sql: string)
    ensures ExtractAllTableNames(sql) != [] ==> ExtractTableName(sql) == ExtractAllTableNames(sql)[0]
    ensures ExtractAllTableNames(sql) == [] ==> ExtractTableName(sql) == "unknown_table"
  {
  }

  /** Without "create table" in any letter case there are no names. */
  lemma NoCreateTableNoNames(sql: string)
    requires !Contains(Lower(sql), "create table")
    ensures ExtractAllTableNames(sql) == [] && ExtractTableName(sql) == "unknown_table"
  {
    if FirstMatchFrom(sql, 0).Some? {
      var i := FirstMatchFrom(sql, 0).value.start;
      WordAtLower(sql, i, "create table");
      OccurrenceContains(Lower(sql), "create table", i);
    }
  }

  /** A statement that names its table right after "CREATE TABLE " yields
      that name, whatever follows it. The literal is written keyword by
      keyword; it is the text "CREATE TABLE " followed by the name. */
  lemma PlainTableName(name: string, rest: string)
    requires IsWord(name) && Lower(name) != "if"
    requires rest == [] || !IsWordChar(rest[0])
    ensures ExtractTableName("CREATE TABLE" + " " + name + rest) == name
    ensures ExtractAllTableNames("CREATE TABLE" + " " + name + rest) != []
    ensures ExtractAllTableNames("CREATE TABLE" + " " + name + rest)[0] == name
  {
    var s := "CREATE TABLE" + " " + name + rest;
    var e := 13 + |name|;
    assert forall k :: 0 <= k < |name| ==> s[13 + k] == name[k];
    CreateTableOpens(s);
    assert KeywordThenSpaces(s, 13, "if").None? by {
      if |name| > 2 {
        assert s[15] == name[2];
      } else if |name| == 2 {
        assert s[13..15] == name;
      } else if |s| >= 15 {
        assert s[14] == rest[0];
        assert Lower(s[13..15])[1] == LowerChar(s[14]);
      }
    }
    WordRunEnd(s, 13, e);
    assert s[13..e] == name;
    assert MatchAt(s, 0) == Capture(s, 0, 13);
  }

  /** Text that opens with "CREATE TABLE " and a visible character passes
      the keyword and its white space. */
  lemma CreateTableOpens(s: string)
    requires 13 < |s| && s[12] == ' ' && !IsSpace(s[13])
    requires forall k :: 0 <= k < 12 ==> s[k] == "CREATE TABLE"[k]
    ensures KeywordThenSpaces(s, 0, "create table") == Some(13)
  {
    KeywordThenOneSpace(s, 0, "create table", "CREATE TABLE");
  }

  /** `WordEnd` stops exactly where the run of word characters stops. */
  lemma WordRunEnd(s: string, i: nat, e: nat)
    requires i <= e <= |s|
    requires forall k :: i <= k < e ==> IsWordChar(s[k])
    requires e == |s| || !IsWordChar(s[e])
    ensures WordEnd(s, i) == e
    decreases e - i
  {
    if i < e {
      WordRunEnd(s, i + 1, e);
    }
  }

  /** The guarded form: with `IF NOT EXISTS` and the name in backticks, the
      name inside the backticks is the one extracted. */
  lemma GuardedTableName(name: string, rest: string)
    requires IsWord(name)
    ensures ExtractTableName("CREATE TABLE" + " " + "IF" + " " + "NOT" + " " + "EXISTS" + " " + "`" + name + "`" + rest) == name
  {
    var s := "CREATE TABLE" + " " + "IF" + " " + "NOT" + " " + "EXISTS" + " " + "`" + name + "`" + rest;
    assert forall k :: 0 <= k < |name| ==> s[28 + k] == name[k];
    GuardedCapture(s, name);
  }

  /** The name in backticks after the group is the match's name. */
  lemma GuardedCapture(s: string, name: string)
    requires GuardedOpening(s) && IsWord(name) && 28 + |name| < |s|
    requires s[27] == '`' && s[28 + |name|] == '`'
    requires forall k :: 0 <= k < |name| ==> s[28 + k] == name[k]
    ensures MatchAt(s, 0).Some? && MatchAt(s, 0).value.name == name
  {
    var e := 28 + |name|;
    IfNotExistsOpens(s);
    assert forall k :: 28 <= k < e ==> s[k] == name[k - 28];
    WordRunEnd(s, 28, e);
    assert s[28..e] == name;
  }

  /** When no name follows `IF NOT EXISTS`, the regex gives the group up
      and captures the word "IF" itself. */
  lemma GuardWithoutName(rest: string)
    requires rest == [] || (!IsWordChar(rest[0]) && rest[0] != '`' && !IsSpace(rest[0]))
    ensures ExtractTableName("CREATE TABLE" + " " + "IF" + " " + "NOT" + " " + "EXISTS" + " " + rest) == "IF"
  {
    var s := "CREATE TABLE" + " " + "IF" + " " + "NOT" + " " + "EXISTS" + " " + rest;
    GuardFallback(s);
  }

  /** The group given up: text that opens with "CREATE TABLE IF NOT EXISTS "
      and has no name after it matches with "IF" as the name. */
  lemma GuardFallback(s: string)
    requires GuardedOpening(s)
    requires |s| == 27 || (!IsSpace(s[27]) && !IsWordChar(s[27]) && s[27] != '`')
    ensures MatchAt(s, 0) == Some(TableMatch(0, "IF", 15))
  {
    IfNotExistsOpens(s);
    CaptureNothing(s, 0, 27);
    CaptureTwoLetters(s, 0, 13);
    assert s[13..15] == "IF";
  }

  /** No word character at `i`, and no backtick: nothing is captured. */
  lemma CaptureNothing(s: string, start: nat, i: nat)
    requires start < i <= |s|
    requires i == |s| || (!IsWordChar(s[i]) && s[i] != '`')
    ensures Capture(s, start, i).None?
  {
    assert WordEnd(s, i) == i;
  }

  /** A two-letter word at `i`, not in backticks, is captured as it is. */
  lemma CaptureTwoLetters(s: string, start: nat, i: nat)
    requires start < i && i + 2 < |s|
    requires IsWordChar(s[i]) && IsWordChar(s[i + 1]) && !IsWordChar(s[i + 2])
    requires s[i] != '`' && s[i + 2] != '`'
    ensures Capture(s, start, i) == Some(TableMatch(start, s[i..i + 2], i + 2))
  {
    WordRunEnd(s, i, i + 2);
  }

  /** "CREATE TABLE IF NOT EXISTS " at the start of `s`, keyword by keyword. */
  predicate GuardedOpening(s: string) {
    27 <= |s| &&
    (forall k :: 0 <= k < 12 ==> s[k] == "CREATE TABLE"[k]) && s[12] == ' ' &&
    s[13] == 'I' && s[14] == 'F' && s[15] == ' ' &&
    (forall k :: 0 <= k < 3 ==> s[16 + k] == "NOT"[k]) && s[19] == ' ' &&
    (forall k :: 0 <= k < 6 ==> s[20 + k] == "EXISTS"[k]) && s[26] == ' '
  }

  /** Text that opens with "CREATE TABLE IF NOT EXISTS " and then a visible
      character passes the whole group; the match is the name after it, or
      else the one right after "CREATE TABLE ". */
  lemma IfNotExistsOpens(s: string)
    requires GuardedOpening(s) && (|s| == 27 || !IsSpace(s[27]))
    ensures MatchAt(s, 0) == if Capture(s, 0, 27).Some? then Capture(s, 0, 27) else Capture(s, 0, 13)
  {
    assert s[16] == "NOT"[0] && s[20] == "EXISTS"[0];
    CreateTableOpens(s);
    KeywordThenOneSpace(s, 13, "if", "IF");
    KeywordThenOneSpace(s, 16, "not", "NOT");
    KeywordThenOneSpace(s, 20, "exists", "EXISTS");
  }

  /** A keyword written `lit` at `i`, followed by exactly one space. */
  lemma KeywordThenOneSpace(s: string, i: nat, word: string, lit: string)
    requires |lit| == |word| && forall k :: 0 <= k < |lit| ==> LowerChar(lit[k]) == word[k]
    requires i + |word| < |s| && s[i + |word|] == ' '
    requires forall k :: 0 <= k < |lit| ==> s[i + k] == lit[k]
    requires i + |word| + 1 == |s| || !IsSpace(s[i + |word| + 1])
    ensures KeywordThenSpaces(s, i, word) == Some(i + |word| + 1)
  {
    assert Lower(s[i..i + |word|]) == word by {
      forall k | 0 <= k < |word| ensures Lower(s[i..i + |word|])[k] == word[k] {
        assert s[i..i + |word|][k] == s[i + k] == lit[k];
      }
    }
  }

}
