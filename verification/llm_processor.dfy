/**
 * The deterministic part of the natural-language-to-SQL helpers: rendering a
 * database schema as prompt text, normalising a model's completion, the four
 * provider adapters (SQL or question generation, with OpenAI or Anthropic) and
 * the routing that picks one of them.
 *
 * The process environment becomes an explicit `Credentials` value and the
 * remote completion call becomes the function parameter `service`; everything
 * else is a pure function of its inputs.
 */
module LlmProcessor {
  import opened Wrappers
  import opened Text

  // ---------------------------------------------------------------- data model

  /** One table of the schema: its name, its columns (name, type) in order, its row count. */
  datatype TableInfo = TableInfo(name: string, columns: seq<(string, string)>, rowCount: nat)

  /** The schema passed around by the server; `tables` is `None` when the key is missing. */
  datatype SchemaInfo = SchemaInfo(tables: Option<seq<TableInfo>>)

  /** `schema_info.get('tables', {})`. */
  function Tables(schema: SchemaInfo): seq<TableInfo> {
    schema.tables.GetOr([])
  }

  datatype Provider = OpenAI | Anthropic

  /** A natural-language query and the provider the caller prefers. */
  datatype QueryRequest = QueryRequest(query: string, llmProvider: Provider)

  /** The two credential variables of the environment; `None` when unset. */
  datatype Credentials = Credentials(openaiKey: Option<string>, anthropicKey: Option<string>)

  /** A credential counts only when set and non-empty (Python's `if key:`). */
  predicate Present(key: Option<string>) {
    key.Some? && key.value != ""
  }

  predicate HasKey(creds: Credentials, p: Provider) {
    match p
    case OpenAI => Present(creds.openaiKey)
    case Anthropic => Present(creds.anthropicKey)
  }

  function KeyVariable(p: Provider): string {
    match p
    case OpenAI => "OPENAI_API_KEY"
    case Anthropic => "ANTHROPIC_API_KEY"
  }

  function ProviderName(p: Provider): string {
    match p
    case OpenAI => "OpenAI"
    case Anthropic => "Anthropic"
  }

  // ----------------------------------------------------------- schema rendering

  function ColumnLine(column: (string, string)): string {
    "  - " + column.0 + " (" + column.1 + ")"
  }

  function ColumnLines(columns: seq<(string, string)>): (lines: seq<string>)
    ensures |lines| == |columns|
  {
    if columns == [] then []
    else ColumnLines(columns[..|columns| - 1]) + [ColumnLine(columns[|columns| - 1])]
  }

  /** The block one table contributes: header, column list, row count, blank separator. */
  function TableLines(t: TableInfo): seq<string> {
    ["Table: " + t.name, "Columns:"] + ColumnLines(t.columns)
      + ["Row count: " + NatToString(t.rowCount), ""]
  }

  /** The lines for all tables, in order. */
  function SchemaLines(tables: seq<TableInfo>): seq<string> {
    if tables == [] then []
    else SchemaLines(tables[..|tables| - 1]) + TableLines(tables[|tables| - 1])
  }

  /** Number of lines the tables take: columns + 4 per table. */
  function LineBudget(tables: seq<TableInfo>): nat {
    if tables == [] then 0
    else LineBudget(tables[..|tables| - 1]) + |tables[|tables| - 1].columns| + 4
  }

  /** The text `format_schema_for_prompt` returns. */
  function SchemaText(schema: SchemaInfo): string {
    Join(SchemaLines(Tables(schema)), "\n")
  }

  lemma ColumnLinesSnoc(columns: seq<(string, string)>, j: nat)
    requires j < |columns|
    ensures ColumnLines(columns[..j + 1]) == ColumnLines(columns[..j]) + [ColumnLine(columns[j])]
  {
    assert columns[..j + 1][..j] == columns[..j];
  }

  lemma SchemaLinesSnoc(tables: seq<TableInfo>, i: nat)
    requires i < |tables|
    ensures SchemaLines(tables[..i + 1]) == SchemaLines(tables[..i]) + TableLines(tables[i])
  {
    assert tables[..i + 1][..i] == tables[..i];
  }

  /** Appends lines table by table and column by column, then joins them with newlines. */
  method FormatSchemaForPrompt(schema: SchemaInfo) returns (text: string)
    ensures text == SchemaText(schema)
  {
    var tables := Tables(schema);
    var lines: seq<string> := [];
    for i := 0 to |tables|
      invariant lines == SchemaLines(tables[..i])
    {
      var table := tables[i];
      ghost var done := lines;
      lines := lines + ["Table: " + table.name];
      lines := lines + ["Columns:"];
      lines := AppendColumns(lines, table.columns);
      lines := lines + ["Row count: " + NatToString(table.rowCount)];
      lines := lines + [""];
      assert lines == done + TableLines(table);
      SchemaLinesSnoc(tables, i);
    }
    assert tables[..|tables|] == tables;
    text := Join(lines, "\n");
  }

  /** The inner loop of the rendering: one line per column, in column order. */
  method AppendColumns(lines: seq<string>, columns: seq<(string, string)>) returns (out: seq<string>)
    ensures out == lines + ColumnLines(columns)
  {
    out := lines;
    for j := 0 to |columns|
      invariant out == lines + ColumnLines(columns[..j])
    {
      var (colName, colType) := columns[j];
      out := out + ["  - " + colName + " (" + colType + ")"];
      ColumnLinesSnoc(columns, j);
    }
    assert columns[..|columns|] == columns;
  }

  /** The rendering has exactly `columns + 4` lines per table. */
  lemma {:induction false} SchemaLineCount(tables: seq<TableInfo>)
    ensures |SchemaLines(tables)| == LineBudget(tables)
  {
    if tables != [] {
      var t := tables[|tables| - 1];
      assert |TableLines(t)| == |t.columns| + 4;
      SchemaLineCount(tables[..|tables| - 1]);
    }
  }

  /** Rendering a concatenation of table lists concatenates the renderings. */
  lemma {:induction false} SchemaLinesAppend(a: seq<TableInfo>, b: seq<TableInfo>)
    ensures SchemaLines(a + b) == SchemaLines(a) + SchemaLines(b)
    decreases |b|
  {
    if b != [] {
      var b' := b[..|b| - 1];
      assert (a + b)[..|a + b| - 1] == a + b';
      SchemaLinesAppend(a, b');
    } else {
      assert a + b == a;
    }
  }

  /**
   * Table `k` occupies the lines from `LineBudget(tables[..k])` on, and those
   * lines are exactly its block: "Table: <name>", "Columns:", one
   * "  - <col> (<type>)" per column in order, "Row count: <n>", "".
   */
  lemma SchemaLinesAt(tables: seq<TableInfo>, k: nat)
    requires k < |tables|
    ensures var start := LineBudget(tables[..k]);
            var lines := SchemaLines(tables);
            && start + |tables[k].columns| + 4 <= |lines|
            && lines[start..start + |tables[k].columns| + 4] == TableLines(tables[k])
  {
    var before, rest := tables[..k], tables[k + 1..];
    assert tables == before + [tables[k]] + rest;
    SchemaLinesAppend(before + [tables[k]], rest);
    SchemaLinesAppend(before, [tables[k]]);
    assert SchemaLines([tables[k]]) == TableLines(tables[k]) by {
      assert [tables[k]][..0] == [];
    }
    SchemaLineCount(before);
    assert |TableLines(tables[k])| == |tables[k].columns| + 4;
  }

  lemma JoinStartsWithFirst(parts: seq<string>, sep: string)
    requires |parts| >= 1
    ensures StartsWith(Join(parts, sep), parts[0])
  {
  }

  /** Rendering is empty exactly when there are no tables (including a missing `tables` key). */
  lemma SchemaTextEmpty(schema: SchemaInfo)
    ensures SchemaText(schema) == "" <==> Tables(schema) == []
  {
    var tables := Tables(schema);
    if tables != [] {
      SchemaLinesAt(tables, 0);
      assert tables[..0] == [];
      var lines := SchemaLines(tables);
      assert lines[0] == "Table: " + tables[0].name;
      JoinStartsWithFirst(lines, "\n");
    }
  }

  /** A non-empty rendering ends with a newline, from the trailing blank line. */
  lemma SchemaTextEndsWithNewline(schema: SchemaInfo)
    requires Tables(schema) != []
    ensures EndsWith(SchemaText(schema), "\n")
  {
    var tables := Tables(schema);
    var last := |tables| - 1;
    SchemaLinesAt(tables, last);
    SchemaLineCount(tables);
    assert tables[..last + 1] == tables;
    var lines := SchemaLines(tables);
    assert |lines| == LineBudget(tables);
    JoinEndsWithSeparator(lines, "\n");
  }

  /** No table name, column name or column type holds a line break. */
  predicate SingleLineNames(tables: seq<TableInfo>) {
    forall i | 0 <= i < |tables| ::
      && '\n' !in tables[i].name
      && forall j | 0 <= j < |tables[i].columns| ::
           '\n' !in tables[i].columns[j].0 && '\n' !in tables[i].columns[j].1
  }

  predicate NoLineBreaks(lines: seq<string>) {
    forall k | 0 <= k < |lines| :: '\n' !in lines[k]
  }

  /**
   * When no name or type holds a line break, splitting the rendered text at
   * line breaks gives back exactly the lines the rendering appended, so a
   * non-empty schema reads back as `columns + 4` lines per table.
   */
  lemma SchemaTextLines(schema: SchemaInfo)
    requires Tables(schema) != [] && SingleLineNames(Tables(schema))
    ensures Split(SchemaText(schema), '\n') == SchemaLines(Tables(schema))
    ensures |Split(SchemaText(schema), '\n')| == LineBudget(Tables(schema))
  {
    var tables := Tables(schema);
    SchemaLinesSingle(tables);
    SchemaLinesAt(tables, 0);
    JoinSplit(SchemaLines(tables), '\n');
    SchemaLineCount(tables);
  }

  lemma {:induction false} SchemaLinesSingle(tables: seq<TableInfo>)
    requires SingleLineNames(tables)
    ensures NoLineBreaks(SchemaLines(tables))
  {
    if tables != [] {
      var init, t := tables[..|tables| - 1], tables[|tables| - 1];
      assert SingleLineNames(init) by {
        forall i | 0 <= i < |init| ensures init[i] == tables[i] { }
      }
      SchemaLinesSingle(init);
      ColumnLinesSingle(t.columns);
      var digits := NatToString(t.rowCount);
      assert '\n' !in digits by {
        forall k | 0 <= k < |digits| ensures digits[k] != '\n' { }
      }
      assert '\n' !in "Row count: " + digits;
    }
  }

  lemma {:induction false} ColumnLinesSingle(columns: seq<(string, string)>)
    requires forall j | 0 <= j < |columns| :: '\n' !in columns[j].0 && '\n' !in columns[j].1
    ensures NoLineBreaks(ColumnLines(columns))
  {
    if columns != [] {
      var init, c := columns[..|columns| - 1], columns[|columns| - 1];
      assert forall j | 0 <= j < |init| :: init[j] == columns[j];
      ColumnLinesSingle(init);
      assert '\n' !in ColumnLine(c);
    }
  }

  // ------------------------------------------------------------ normalisation

  const Fence: string := "```"
  const SqlFence: string := "```sql"

  /** The three fence removals, in order: a leading "```sql", a leading "```", a trailing "```". */
  function Unfence(sql: string): (r: string)
  {
    DropSuffix(DropPrefix(DropPrefix(sql, SqlFence), Fence), Fence)
  }

  /** Text that neither starts nor ends with a fence passes the removals unchanged. */
  lemma UnfenceClean(sql: string)
    requires !StartsWith(sql, Fence) && !EndsWith(sql, Fence)
    ensures Unfence(sql) == sql
  {
    OpensWithSqlFence(sql);
  }

  lemma OpensWithSqlFence(sql: string)
    ensures StartsWith(sql, SqlFence) ==> StartsWith(sql, Fence)
  {
    if StartsWith(sql, SqlFence) {
      assert sql[..3] == SqlFence[..3] == Fence;
    }
  }

  lemma UnfenceInfix(sql: string)
    ensures IsInfix(Unfence(sql), sql)
  {
    var s1 := DropPrefix(sql, SqlFence);
    var s2 := DropPrefix(s1, Fence);
    DropInfix(sql, SqlFence);
    DropInfix(s1, Fence);
    DropInfix(s2, Fence);
    InfixTrans(s2, s1, sql);
    InfixTrans(Unfence(sql), s2, sql);
  }

  /**
   * The SQL clean-up: strip, drop a leading "```sql", then a leading "```",
   * then a trailing "```", and strip again.
   */
  function CleanSql(completion: string): (r: string)
  {
    Strip(Unfence(Strip(completion)))
  }

  /**
   * The result never has whitespace at either end, and a completion whose
   * stripped text neither starts nor ends with a fence comes back as exactly
   * that stripped text.
   */
  lemma CleanSqlTrimmed(completion: string)
    ensures Trimmed(CleanSql(completion))
    ensures var t := Strip(completion);
            !StartsWith(t, Fence) && !EndsWith(t, Fence) ==> CleanSql(completion) == t
  {
    var t := Strip(completion);
    StripIsTrimmed(Unfence(t));
    if !StartsWith(t, Fence) && !EndsWith(t, Fence) {
      UnfenceClean(t);
      StripIsTrimmed(completion);
      StripTrimmed(t);
    }
  }

  /** The clean-up only removes text: its result is a piece of the stripped completion. */
  lemma CleanSqlInfix(completion: string)
    ensures IsInfix(CleanSql(completion), Strip(completion))
  {
    var t := Strip(completion);
    UnfenceInfix(t);
    StripInfix(Unfence(t));
    InfixTrans(CleanSql(completion), Unfence(t), t);
  }

  /** Clean-up is idempotent on input that is already clean of fences. */
  lemma CleanSqlIdempotentOnClean(completion: string)
    requires !StartsWith(CleanSql(completion), Fence) && !EndsWith(CleanSql(completion), Fence)
    ensures CleanSql(CleanSql(completion)) == CleanSql(completion)
  {
    var r := CleanSql(completion);
    CleanSqlTrimmed(completion);
    StripTrimmed(r);
    CleanSqlTrimmed(r);
  }

  /**
   * A body behind a "```sql" fence keeps its inner text, unless it opens with
   * a backquote (the bare-fence removal would then eat into it).
   */
  lemma UnfenceSqlFenced(body: string)
    requires body == "" || body[0] != '`'
    ensures Unfence(SqlFence + body + Fence) == body
  {
    DropPrefixOf(SqlFence, body + Fence);
    assert SqlFence + (body + Fence) == SqlFence + body + Fence;
    if body == "" {
      assert body + Fence == Fence + "";
      DropPrefixOf(Fence, "");
    } else {
      assert !StartsWith(body + Fence, Fence) by {
        assert (body + Fence)[0] == body[0];
      }
      DropSuffixOf(body, Fence);
    }
  }

  /**
   * A body behind a bare "```" fence keeps its inner text, unless it opens
   * with "sql" (the whole then reads as a "```sql" fence).
   */
  lemma UnfencePlainFenced(body: string)
    requires !StartsWith(body, "sql")
    ensures Unfence(Fence + body + Fence) == body
  {
    var c := Fence + body + Fence;
    assert !StartsWith(c, SqlFence) by {
      if |body| >= 3 {
        assert c[..6][3..] == body[..3];
        assert SqlFence[3..] == "sql";
      } else {
        assert c[..6][3 + |body|] == c[3 + |body|] == '`';
        assert SqlFence[3 + |body|] != '`';
      }
    }
    DropPrefixOf(Fence, body + Fence);
    assert Fence + (body + Fence) == c;
    DropSuffixOf(body, Fence);
  }

  /** Text that starts and ends with a backquote is already stripped. */
  lemma FencedTextTrimmed(c: string)
    requires |c| > 0 && c[0] == '`' && c[|c| - 1] == '`'
    ensures Strip(c) == c
  {
    assert !IsSpace('`');
    StripTrimmed(c);
  }

  /** A line break on either side of a trimmed text is stripped away. */
  lemma StripLineBreaks(text: string)
    requires Trimmed(text) && text != ""
    ensures Strip("\n" + text + "\n") == text
  {
    var body := "\n" + text + "\n";
    assert IsSpace('\n');
    assert body[1..] == text + "\n";
    assert TrimStart(body) == text + "\n";
    assert (text + "\n")[..|text|] == text;
    assert TrimEnd(text + "\n") == text;
  }

  /** A completion fenced with "```sql" comes back as its stripped body. */
  lemma CleanSqlFencedSql(body: string)
    requires body == "" || body[0] != '`'
    ensures CleanSql(SqlFence + body + Fence) == Strip(body)
  {
    UnfenceSqlFenced(body);
    FenceOpens();
    CleanFencedWith(SqlFence, body);
  }

  /** A completion fenced with a bare "```" comes back as its stripped body. */
  lemma CleanSqlFencedPlain(body: string)
    requires !StartsWith(body, "sql")
    ensures CleanSql(Fence + body + Fence) == Strip(body)
  {
    UnfencePlainFenced(body);
    FenceOpens();
    CleanFencedWith(Fence, body);
  }

  lemma FenceOpens()
    ensures StartsWith(SqlFence, Fence) && StartsWith(Fence, Fence)
  {
    assert SqlFence[..3] == Fence;
  }

  /** Stripping leaves alone a completion that opens and closes with a fence. */
  lemma CleanFencedWith(open: string, body: string)
    requires StartsWith(open, Fence) && Unfence(open + body + Fence) == body
    ensures CleanSql(open + body + Fence) == Strip(body)
  {
    var c := open + body + Fence;
    assert c[0] == open[0] == Fence[0];
    assert c[|c| - 1] == Fence[2];
    FencedTextTrimmed(c);
  }

  /**
   * The shape the prompts ask the model to avoid but that models return: a
   * statement on its own lines inside a fence comes back without the fence.
   */
  lemma CleanSqlFencedStatement(statement: string)
    requires Trimmed(statement) && statement != ""
    ensures var body := "\n" + statement + "\n";
            CleanSql(SqlFence + body + Fence) == statement && CleanSql(Fence + body + Fence) == statement
  {
    var body := "\n" + statement + "\n";
    assert body[0] == '\n';
    assert !StartsWith(body, "sql") by {
      assert |body| < 3 || body[..3][0] == '\n';
    }
    CleanSqlFencedSql(body);
    CleanSqlFencedPlain(body);
    StripLineBreaks(statement);
  }

  predicate Wrapped(s: string, quote: char) {
    |s| >= 1 && s[0] == quote && s[|s| - 1] == quote
  }

  /** Python's `s[1:-1]`, which is "" for a string of one character. */
  function Inner(s: string): (r: string)
    ensures |r| == if |s| >= 2 then |s| - 2 else 0
    ensures forall i | 0 <= i < |r| :: r[i] == s[i + 1]
  {
    if |s| >= 2 then s[1..|s| - 1] else ""
  }

  /** One quote removal: `s[1:-1]` when `s` both starts and ends with `quote`. */
  function Unquote(s: string, quote: char): string {
    if Wrapped(s, quote) then Inner(s) else s
  }

  /** The question clean-up: strip, unwrap one '"' pair, then one '\'' pair; no second strip. */
  function CleanQuestion(completion: string): (r: string)
    ensures |r| <= |Strip(completion)|
    ensures var t := Strip(completion);
            !Wrapped(t, '"') && !Wrapped(t, '\'') ==> r == t
  {
    Unquote(Unquote(Strip(completion), '"'), '\'')
  }

  /** Where the unquoted text starts and ends inside `s`. */
  function UnquoteStart(s: string, quote: char): nat {
    if Wrapped(s, quote) then 1 else 0
  }

  function UnquoteEnd(s: string, quote: char): nat {
    if Wrapped(s, quote) && |s| >= 2 then |s| - 1
    else if Wrapped(s, quote) then 1
    else |s|
  }

  /** An unquoting drops at most one character from each end. */
  lemma UnquoteSlice(s: string, quote: char)
    ensures UnquoteStart(s, quote) <= UnquoteEnd(s, quote) <= |s|
    ensures UnquoteStart(s, quote) <= 1 && |s| - UnquoteEnd(s, quote) <= 1
    ensures Unquote(s, quote) == s[UnquoteStart(s, quote)..UnquoteEnd(s, quote)]
  {
  }

  /**
   * The question clean-up removes at most two characters from each end of
   * the stripped completion and keeps the rest as it is.
   */
  lemma CleanQuestionInfix(completion: string)
    ensures var t := Strip(completion);
            exists i, j :: 0 <= i <= j <= |t| && i <= 2 && |t| - j <= 2
                           && CleanQuestion(completion) == t[i..j]
  {
    var t := Strip(completion);
    var q1 := Unquote(t, '"');
    UnquoteSlice(t, '"');
    var i1, j1 := UnquoteStart(t, '"'), UnquoteEnd(t, '"');
    UnquoteSlice(q1, '\'');
    var i2, j2 := UnquoteStart(q1, '\''), UnquoteEnd(q1, '\'');
    SliceOfSlice(t, i1, j1, i2, j2);
    assert CleanQuestion(completion) == t[i1 + i2..i1 + j2];
  }

  /**
   * A completion in double quotes loses them (when what is inside is not
   * itself in single quotes); one in single quotes loses those. Whitespace
   * inside the quotes is kept: there is no second strip.
   */
  lemma CleanQuestionQuoted(q: string)
    ensures !Wrapped(q, '\'') ==> CleanQuestion("\"" + q + "\"") == q
    ensures CleanQuestion("'" + q + "'") == q
  {
    QuotesAreNotSpace();
    var d, s := "\"" + q + "\"", "'" + q + "'";
    QuotedShape(q, '"');
    QuotedShape(q, '\'');
    assert d == ['"'] + q + ['"'] && s == ['\''] + q + ['\''];
    StripTrimmed(d);
    StripTrimmed(s);
  }

  lemma QuotesAreNotSpace()
    ensures !IsSpace('"') && !IsSpace('\'')
  {
  }

  /** A text between two non-space quote characters has no edge whitespace and unquotes to its inside. */
  lemma QuotedShape(q: string, quote: char)
    requires !IsSpace(quote)
    ensures var s := [quote] + q + [quote];
            Trimmed(s) && Wrapped(s, quote) && Inner(s) == q
  {
    var s := [quote] + q + [quote];
    assert s[0] == quote && s[|s| - 1] == quote;
    assert s[1..|s| - 1] == q;
  }

  // ------------------------------------------------------------------ adapters

  /** What the adapter is for: SQL from a question, or a question from the schema. */
  datatype Task = SqlGeneration | QuestionGeneration

  /**
   * What an adapter sends to the provider: the rendered schema, the user's
   * query text (SQL generation only) and the output cap.
   */
  datatype CompletionRequest = CompletionRequest(
    provider: Provider, task: Task, schemaDescription: string,
    queryText: Option<string>, maxTokens: nat)

  /** What comes back from the provider call: a completion, or the text of the error raised. */
  datatype Reply = Completed(text: string) | CallFailed(message: string)

  function MaxTokens(task: Task): nat {
    match task
    case SqlGeneration => 500
    case QuestionGeneration => 100
  }

  function ErrorPrefix(task: Task, p: Provider): string {
    match task
    case SqlGeneration => "Error generating SQL with " + ProviderName(p) + ": "
    case QuestionGeneration => "Error generating random query with " + ProviderName(p) + ": "
  }

  function MissingKeyMessage(p: Provider): string {
    KeyVariable(p) + " environment variable not set"
  }

  function Normalise(task: Task, completion: string): string {
    match task
    case SqlGeneration => CleanSql(completion)
    case QuestionGeneration => CleanQuestion(completion)
  }

  const NoKeysMessage: string :=
    "No LLM API keys available. Please set " + KeyVariable(OpenAI) + " or " + KeyVariable(Anthropic) + "."

  /**
   * The exceptions the processor raises: an adapter's wrapped failure (a
   * missing credential or the provider's own error) or the no-keys error of
   * `generate_random_query`; `Message` is the exception text.
   */
  datatype LlmError = AdapterError(task: Task, provider: Provider, detail: string) | NoApiKeys {
    function Message(): string {
      match this
      case AdapterError(task, provider, detail) => ErrorPrefix(task, provider) + detail
      case NoApiKeys => NoKeysMessage
    }
  }

  /**
   * One adapter: check the provider's credential, call the provider, normalise
   * the completion; any failure inside, the missing credential included, is
   * re-raised with the adapter's prefix.
   */
  function Adapter(request: CompletionRequest, creds: Credentials,
                   service: CompletionRequest -> Reply): (r: Result<string, LlmError>)
    ensures r.Failure? <==> !HasKey(creds, request.provider) || service(request).CallFailed?
    ensures r.Failure? ==> r.error.AdapterError? && r.error.task == request.task
                           && r.error.provider == request.provider
    ensures !HasKey(creds, request.provider) ==>
              r == Failure(AdapterError(request.task, request.provider, MissingKeyMessage(request.provider)))
    ensures HasKey(creds, request.provider) && service(request).CallFailed? ==>
              r == Failure(AdapterError(request.task, request.provider, service(request).message))
    ensures HasKey(creds, request.provider) && service(request).Completed? ==>
              r == Success(Normalise(request.task, service(request).text))
  {
    if !HasKey(creds, request.provider) then
      Failure(AdapterError(request.task, request.provider, MissingKeyMessage(request.provider)))
    else
      match service(request)
      case CallFailed(message) => Failure(AdapterError(request.task, request.provider, message))
      case Completed(text) => Success(Normalise(request.task, text))
  }

  /** The request `generate_sql_with_*` sends: rendered schema, query text, 500 tokens. */
  function SqlRequest(p: Provider, queryText: string, schema: SchemaInfo): CompletionRequest {
    CompletionRequest(p, SqlGeneration, SchemaText(schema), Some(queryText), MaxTokens(SqlGeneration))
  }

  /** The request `generate_random_query_with_*` sends: rendered schema, 100 tokens. */
  function QuestionRequest(p: Provider, schema: SchemaInfo): CompletionRequest {
    CompletionRequest(p, QuestionGeneration, SchemaText(schema), None, MaxTokens(QuestionGeneration))
  }

  lemma ErrorPrefixShape(task: Task, p: Provider)
    ensures |ErrorPrefix(task, p)| > 0 && ErrorPrefix(task, p)[0] == 'E'
    ensures EndsWith(ErrorPrefix(task, p), ProviderName(p) + ": ")
  {
    var tail := ProviderName(p) + ": ";
    var prefix := ErrorPrefix(task, p);
    match task
    case SqlGeneration =>
      assert prefix == "Error generating SQL with " + tail;
    case QuestionGeneration =>
      assert prefix == "Error generating random query with " + tail;
  }

  lemma NoKeysMessageShape()
    ensures |NoKeysMessage| > 0 && NoKeysMessage[0] == 'N'
  {
    var head := "No LLM API keys available. Please set ";
    assert head[0] == 'N';
  }

  /**
   * Every adapter error text starts with "Error", names the provider before
   * ": " and carries the original message after the prefix; the no-keys
   * text starts differently, so the two kinds cannot be confused.
   */
  lemma ErrorMessages(e: LlmError)
    ensures e.AdapterError? ==>
              && StartsWith(e.Message(), ErrorPrefix(e.task, e.provider))
              && EndsWith(ErrorPrefix(e.task, e.provider), ProviderName(e.provider) + ": ")
              && e.Message()[|ErrorPrefix(e.task, e.provider)|..] == e.detail
    ensures e.AdapterError? ==> e.Message() != NoKeysMessage
  {
    if e.AdapterError? {
      var prefix := ErrorPrefix(e.task, e.provider);
      ErrorPrefixShape(e.task, e.provider);
      assert e.Message() == prefix + e.detail;
      assert e.Message()[0] == 'E';
      NoKeysMessageShape();
    }
  }

  /** Without its credential an adapter fails before calling the provider: the service is not consulted. */
  lemma AdapterNoKeyNoCall(request: CompletionRequest, creds: Credentials,
                           s1: CompletionRequest -> Reply, s2: CompletionRequest -> Reply)
    requires !HasKey(creds, request.provider)
    ensures Adapter(request, creds, s1) == Adapter(request, creds, s2)
  {
  }

  /** A successful SQL adapter returns trimmed text. */
  lemma SqlAdapterTrimmed(p: Provider, queryText: string, schema: SchemaInfo, creds: Credentials,
                          service: CompletionRequest -> Reply)
    requires Adapter(SqlRequest(p, queryText, schema), creds, service).Success?
    ensures Trimmed(Adapter(SqlRequest(p, queryText, schema), creds, service).value)
  {
  }

  // ------------------------------------------------------------------- routing

  /** Provider chosen by `generate_sql`: OpenAI key, else Anthropic key, else the preference. */
  function SqlProvider(creds: Credentials, preference: Provider): (p: Provider)
    ensures p == OpenAI <==>
              HasKey(creds, OpenAI) || (!HasKey(creds, Anthropic) && preference == OpenAI)
  {
    if HasKey(creds, OpenAI) then OpenAI
    else if HasKey(creds, Anthropic) then Anthropic
    else if preference == OpenAI then OpenAI
    else Anthropic
  }

  /**
   * `generate_sql`: route, then hand the request's query and the schema to the
   * chosen adapter. No SQL comes back without some credential, and every
   * failure is the chosen SQL adapter's wrapped error.
   */
  function GenerateSql(creds: Credentials, request: QueryRequest, schema: SchemaInfo,
                       service: CompletionRequest -> Reply): (r: Result<string, LlmError>)
    ensures r.Success? ==> HasKey(creds, OpenAI) || HasKey(creds, Anthropic)
    ensures r.Failure? ==> r.error.AdapterError? && r.error.task == SqlGeneration
                           && r.error.provider == SqlProvider(creds, request.llmProvider)
  {
    Adapter(SqlRequest(SqlProvider(creds, request.llmProvider), request.query, schema), creds, service)
  }

  /**
   * With any credential present the preference is ignored: two requests that
   * differ only in preference get the same answer.
   */
  lemma GenerateSqlIgnoresPreference(creds: Credentials, query: string, a: Provider, b: Provider,
                                     schema: SchemaInfo, service: CompletionRequest -> Reply)
    requires HasKey(creds, OpenAI) || HasKey(creds, Anthropic)
    ensures GenerateSql(creds, QueryRequest(query, a), schema, service)
            == GenerateSql(creds, QueryRequest(query, b), schema, service)
  {
  }

  /**
   * With a credential present, the chosen provider is asked once with the
   * request's query text unchanged and the rendered schema, and its answer
   * decides the result.
   */
  lemma GenerateSqlUsesKeyedProvider(creds: Credentials, request: QueryRequest, schema: SchemaInfo,
                                     service: CompletionRequest -> Reply)
    requires HasKey(creds, OpenAI) || HasKey(creds, Anthropic)
    ensures var p := if HasKey(creds, OpenAI) then OpenAI else Anthropic;
            var sent := CompletionRequest(p, SqlGeneration, SchemaText(schema), Some(request.query), 500);
            && SqlProvider(creds, request.llmProvider) == p
            && GenerateSql(creds, request, schema, service)
               == (match service(sent)
                   case Completed(text) => Success(CleanSql(text))
                   case CallFailed(m) => Failure(AdapterError(SqlGeneration, p, m)))
  {
  }

  /**
   * With no credential at all the preference picks the adapter, and that
   * adapter then fails on its own missing credential: no SQL is produced.
   */
  lemma GenerateSqlWithoutKeysFails(creds: Credentials, request: QueryRequest, schema: SchemaInfo,
                                    service: CompletionRequest -> Reply)
    requires !HasKey(creds, OpenAI) && !HasKey(creds, Anthropic)
    ensures SqlProvider(creds, request.llmProvider) == request.llmProvider
    ensures GenerateSql(creds, request, schema, service)
            == Failure(AdapterError(SqlGeneration, request.llmProvider, MissingKeyMessage(request.llmProvider)))
  {
  }

  const UploadMessage: string := "Upload data to start exploring your database with natural language queries."
  /** Where `generate_random_query` goes: fixed text, an adapter, or the no-keys error. */
  datatype QuestionRoute = UploadPrompt | Ask(provider: Provider) | NoKeys

  function RouteRandomQuery(creds: Credentials, schema: SchemaInfo): (route: QuestionRoute)
    ensures route == UploadPrompt <==> Tables(schema) == []
    ensures route == NoKeys <==>
              Tables(schema) != [] && !HasKey(creds, OpenAI) && !HasKey(creds, Anthropic)
    ensures route.Ask? ==> HasKey(creds, route.provider)
    ensures route == Ask(Anthropic) ==> !HasKey(creds, OpenAI)
  {
    if Tables(schema) == [] then UploadPrompt
    else if HasKey(creds, OpenAI) then Ask(OpenAI)
    else if HasKey(creds, Anthropic) then Ask(Anthropic)
    else NoKeys
  }

  /**
   * `generate_random_query`: the upload prompt for an empty schema, the
   * no-keys error when there is no credential, else a question from the keyed
   * adapter, whose failures are question-generation errors.
   */
  function GenerateRandomQuery(creds: Credentials, schema: SchemaInfo,
                               service: CompletionRequest -> Reply): (r: Result<string, LlmError>)
    ensures Tables(schema) == [] ==> r == Success(UploadMessage)
    ensures r == Failure(NoApiKeys) <==>
              Tables(schema) != [] && !HasKey(creds, OpenAI) && !HasKey(creds, Anthropic)
    ensures r.Failure? && r.error.AdapterError? ==>
              r.error.task == QuestionGeneration && HasKey(creds, r.error.provider)
  {
    match RouteRandomQuery(creds, schema)
    case UploadPrompt => Success(UploadMessage)
    case NoKeys => Failure(NoApiKeys)
    case Ask(p) => Adapter(QuestionRequest(p, schema), creds, service)
  }

  /**
   * An empty or missing table list gives the fixed upload message whatever
   * the credentials and without consulting any provider.
   */
  lemma RandomQueryEmptySchema(schema: SchemaInfo, c1: Credentials, c2: Credentials,
                               s1: CompletionRequest -> Reply, s2: CompletionRequest -> Reply)
    requires Tables(schema) == []
    ensures GenerateRandomQuery(c1, schema, s1) == GenerateRandomQuery(c2, schema, s2)
                                                 == Success(UploadMessage)
  {
  }

  /**
   * The no-keys error is raised exactly when there are tables and neither
   * credential; it is not wrapped, so its text never reads like an adapter error.
   */
  lemma RandomQueryNoKeys(creds: Credentials, schema: SchemaInfo, service: CompletionRequest -> Reply)
    ensures var r := GenerateRandomQuery(creds, schema, service);
            r.Failure? && r.error.Message() == NoKeysMessage
            <==> Tables(schema) != [] && !HasKey(creds, OpenAI) && !HasKey(creds, Anthropic)
  {
    var r := GenerateRandomQuery(creds, schema, service);
    if r.Failure? {
      ErrorMessages(r.error);
    }
  }

  /**
   * With tables present, the OpenAI credential wins, else the Anthropic one;
   * the chosen adapter is asked for a question about the rendered schema.
   */
  lemma RandomQueryUsesKeyedProvider(creds: Credentials, schema: SchemaInfo,
                                     service: CompletionRequest -> Reply)
    requires Tables(schema) != []
    requires HasKey(creds, OpenAI) || HasKey(creds, Anthropic)
    ensures var p := if HasKey(creds, OpenAI) then OpenAI else Anthropic;
            var sent := CompletionRequest(p, QuestionGeneration, SchemaText(schema), None, 100);
            GenerateRandomQuery(creds, schema, service)
            == (match service(sent)
                case Completed(text) => Success(CleanQuestion(text))
                case CallFailed(m) => Failure(AdapterError(QuestionGeneration, p, m)))
  {
  }
}
