# Natural-language SQL interface: LLM routing and file ingestion

This project is a Dafny model of two server modules of a natural-language SQL
interface. Users upload CSV, JSON or JSONL files and ask questions in English.
A large language model turns each question into SQLite.

- `llm_processor` renders the database schema as prompt text. It picks a
  provider (OpenAI or Anthropic) from the credentials the environment holds.
  It then cleans the provider's completion: code fences are removed from
  generated SQL; from a generated example question a wrapping pair of double
  quotes is removed, and then a wrapping pair of single quotes. Every adapter failure is re-raised with a prefix that
  names what was being generated and the provider.
- `file_processor` flattens nested JSON into one level of columns. Object
  members are joined with `__` and array elements get `_<index>`. It turns
  JSONL content into one record per non-blank line, in two passes:
  1. discover every field name;
  2. fill each line's record, using null for the fields the line lacks.

  It also sanitizes table names, cleans column names and checks that a JSON
  upload is a non-empty array.

Files:

- `wrappers.dfy`: `Option` and `Result`.
- `text.dfy` (module `Text`): the Python string built-ins the modules use.
  - `str.strip` uses Python's own whitespace set.
  - It also covers `split('\n')`, `"\n".join` and `str(n)` for `n >= 0`.
  - Each comes with the lemmas the rest of the model needs.
- `llm_processor.dfy` (module `LlmProcessor`):
  - schema rendering, as a method proved against the function that defines the text;
  - completion clean-up;
  - both adapters, as one function over `(task, provider)`;
  - provider routing for SQL and for random questions.
- `file_processor.dfy` (module `FileProcessor`):
  - flattening;
  - JSONL field discovery and record building, as loop methods proved against functions over per-line outcomes;
  - table-name sanitizing, column-name cleaning and the JSON array check.

The model stands in for the outside world as follows:

- The environment is a `Credentials` value with two optional keys.
- A provider call is a function parameter `service: CompletionRequest -> Reply`.
- `json.loads` is a parameter `parse: string -> Result<Json, string>`.
- The UTF-8 decoding of the upload is an `Option<string>`, where `None` means the bytes are not UTF-8.
- The identifier validator and Python's `hash` are parameters of `SanitizeTableName`.

## Model

| member | source | states |
|---|---|---|
| Text.StripSpec | app/server/core/llm_processor.py:52 | `strip()` returns the slice of its input that neither starts nor ends with whitespace, and everything it removes from either end is whitespace |
| Text.Strip | app/server/core/llm_processor.py:52 | `str.strip()`: whitespace removed from the front, then from the back; what that means is stated by `StripSpec` |
| Text.StripIdempotent | app/server/core/llm_processor.py:62 | stripping twice is stripping once |
| Text.StripEmpty | app/server/core/file_processor.py:224-226 | a line strips to the empty string exactly when it is all whitespace, so exactly those lines are skipped |
| Text.StripLeadingSpace | app/server/core/file_processor.py:221 | a leading whitespace character does not change the stripped content |
| Text.SplitJoin | app/server/core/file_processor.py:221 | joining the pieces of `split('\n')` with `"\n"` gives back the text |
| Text.JoinSplit | app/server/core/llm_processor.py:142 | splitting a `"\n".join` of newline-free lines gives back the lines |
| Text.JoinLength | app/server/core/llm_processor.py:142 | the joined length is the sum of the part lengths plus one separator between neighbours |
| Text.Join | app/server/core/llm_processor.py:142 | `sep.join(parts)`: the parts with the separator between neighbours; `""` for no parts and the part itself for one |
| Text.Split | app/server/core/file_processor.py:221 | `split` yields at least one piece and no piece contains the separator |
| Text.NatToString | app/server/core/llm_processor.py:139 | `str(n)` is a non-empty string of decimal digits without a leading zero |
| Text.NatToStringValue | app/server/core/file_processor.py:199 | reading the decimal digits of `str(i)` back gives `i` |
| Text.NatToStringInjective | app/server/core/file_processor.py:199 | distinct array indices print differently |
| Text.NatToStringLength | app/server/core/file_processor.py:42 | a number below `10^k` prints in at most `k` digits |
| LlmProcessor.FormatSchemaForPrompt | app/server/core/llm_processor.py:126-142 | the loop builds exactly the joined lines `Table: <name>`, `Columns:`, one `  - <col> (<type>)` per column, `Row count: <n>`, `""` per table, in order |
| LlmProcessor.AppendColumns | app/server/core/llm_processor.py:136-137 | the column loop appends one `  - <col> (<type>)` line per column, in column order, after the lines already there |
| LlmProcessor.SchemaText | app/server/core/llm_processor.py:126-142 | the text `format_schema_for_prompt` returns, as the newline join of each table's block; `FormatSchemaForPrompt` is proved to return it and the lemmas below state its shape |
| LlmProcessor.SchemaLineCount | app/server/core/llm_processor.py:130-140 | the rendering has `columns + 4` lines per table |
| LlmProcessor.SchemaLinesAppend | app/server/core/llm_processor.py:132-140 | the lines of a table list are the lines of its parts, concatenated |
| LlmProcessor.SchemaLinesAt | app/server/core/llm_processor.py:132-140 | table `k`'s block sits at the offset given by the earlier tables and is exactly that table's lines |
| LlmProcessor.SchemaTextEmpty | app/server/core/llm_processor.py:130-142 | the schema text is empty exactly when there are no tables |
| LlmProcessor.SchemaTextEndsWithNewline | app/server/core/llm_processor.py:140-142 | with at least one table the text ends in `"\n"`, because the last line is `""` |
| LlmProcessor.SchemaTextLines | app/server/core/llm_processor.py:126-142 | when no name or type holds a line break, splitting the rendered text at `"\n"` gives back exactly the appended lines, `columns + 4` per table |
| LlmProcessor.UnfenceClean | app/server/core/llm_processor.py:55-60 | text with no fence at either end is left alone |
| LlmProcessor.Unfence | app/server/core/llm_processor.py:55-60 | the three fence removals of `clean_sql`, in the code's order: a leading ```` ```sql ````, then a leading ```` ``` ````, then a trailing ```` ``` ```` |
| LlmProcessor.UnfenceInfix | app/server/core/llm_processor.py:55-60 | removing fences yields a contiguous slice of the text |
| LlmProcessor.UnfenceSqlFenced | app/server/core/llm_processor.py:55-60 | fence removal inverts wrapping a body in a ```` ```sql ```` fence, for any body that does not open with a backtick |
| LlmProcessor.UnfencePlainFenced | app/server/core/llm_processor.py:55-60 | fence removal inverts wrapping a body in a bare ```` ``` ```` fence, for any body that does not open with `sql` (lower-case `select …` included) |
| LlmProcessor.CleanSqlTrimmed | app/server/core/llm_processor.py:52-62 | the cleaned SQL has no surrounding whitespace, and an unfenced completion is only stripped |
| LlmProcessor.CleanSql | app/server/core/llm_processor.py:52-62 | strip, remove the fences, strip again; the lemmas beside it give the result's shape |
| LlmProcessor.CleanSqlInfix | app/server/core/llm_processor.py:52-62 | the cleaned SQL is a contiguous slice of the stripped completion |
| LlmProcessor.CleanSqlIdempotentOnClean | app/server/core/llm_processor.py:52-62 | cleaning SQL that carries no fence marker changes nothing |
| LlmProcessor.CleanSqlFencedSql | app/server/core/llm_processor.py:52-62 | a completion fenced with ```` ```sql ```` cleans to its stripped body when the body does not open with a backtick |
| LlmProcessor.CleanSqlFencedPlain | app/server/core/llm_processor.py:52-62 | a completion fenced with a bare ```` ``` ```` cleans to its stripped body when the body does not open with `sql` |
| LlmProcessor.CleanSqlFencedStatement | app/server/core/llm_processor.py:111-121 | a statement fenced on its own lines comes back exactly |
| LlmProcessor.StripLineBreaks | app/server/core/llm_processor.py:62 | stripping the newlines that surround a trimmed statement gives the statement |
| LlmProcessor.FencedTextTrimmed | app/server/core/llm_processor.py:52 | a completion that opens and closes with a backtick is already stripped |
| LlmProcessor.Inner | app/server/core/llm_processor.py:212 | `s[1:-1]` is two characters shorter than `s` (empty when `s` has fewer than two), and its character `i` is character `i + 1` of `s` |
| LlmProcessor.CleanQuestion | app/server/core/llm_processor.py:208-216 | the cleaned question is no longer than the stripped completion, and equals it when no quote pair wraps it |
| LlmProcessor.UnquoteSlice | app/server/core/llm_processor.py:211-214 | one unquoting drops at most one character from each end |
| LlmProcessor.CleanQuestionInfix | app/server/core/llm_processor.py:264-272 | the question is the stripped completion with at most two characters dropped from each end |
| LlmProcessor.CleanQuestionQuoted | app/server/core/llm_processor.py:264-272 | a question wrapped in `'…'`, or in `"…"` with no inner single-quote pair, comes back unwrapped |
| LlmProcessor.Adapter | app/server/core/llm_processor.py:11-65 | an adapter fails exactly when its key is missing or the call fails; the failure names the adapter's task and provider with the missing-key text or the call's own message; otherwise the result is the normalised completion |
| LlmProcessor.AdapterNoKeyNoCall | app/server/core/llm_processor.py:13-15 | without its key an adapter never depends on the provider call |
| LlmProcessor.SqlAdapterTrimmed | app/server/core/llm_processor.py:62 | a successful SQL adapter result carries no surrounding whitespace |
| LlmProcessor.ErrorMessages | app/server/core/llm_processor.py:64-65 | an adapter error message is its prefix followed by the original text, names the provider, and never equals the no-keys message |
| LlmProcessor.SqlProvider | app/server/core/llm_processor.py:152-162 | OpenAI is chosen exactly when its key is present, or when neither key is and the request prefers OpenAI |
| LlmProcessor.GenerateSql | app/server/core/llm_processor.py:144-162 | SQL comes back only when some key is present; every failure is the SQL adapter's wrapped error for the provider the routing chose |
| LlmProcessor.GenerateSqlIgnoresPreference | app/server/core/llm_processor.py:152-156 | once any key is present the request's preference makes no difference |
| LlmProcessor.GenerateSqlUsesKeyedProvider | app/server/core/llm_processor.py:152-156 | with a key present, the OpenAI key winning, `generate_sql` sends that provider a 500-token SQL request and returns the cleaned SQL or the prefixed call error |
| LlmProcessor.GenerateSqlWithoutKeysFails | app/server/core/llm_processor.py:158-162 | with no keys the preferred adapter is chosen, and it fails with its own missing-key error |
| LlmProcessor.RouteRandomQuery | app/server/core/llm_processor.py:291-306 | an empty schema gives the upload prompt, and no keys give the no-keys error; otherwise the asking provider holds a key, with Anthropic only when OpenAI has none |
| LlmProcessor.GenerateRandomQuery | app/server/core/llm_processor.py:277-306 | no tables give the upload message; the no-keys error comes exactly when there are tables and no key; an adapter failure is a question-generation error of a provider whose key is present |
| LlmProcessor.RandomQueryEmptySchema | app/server/core/llm_processor.py:292-294 | with no tables the result is the upload message, whatever the credentials and provider |
| LlmProcessor.RandomQueryNoKeys | app/server/core/llm_processor.py:305-306 | the result is the no-keys error exactly when there are tables and no key |
| LlmProcessor.RandomQueryUsesKeyedProvider | app/server/core/llm_processor.py:300-304 | with tables and a key, the keyed provider (OpenAI first) receives the 100-token question request, and the result is the cleaned question or the prefixed call error |
| FileProcessor.FlattenIsFlat | app/server/core/file_processor.py:180-205 | every flattened value is a primitive and every key starts with the prefix |
| FileProcessor.Flatten | app/server/core/file_processor.py:180-205 | `flatten_json_object`: objects recurse with `prefix__key`, arrays with `prefix_i`, primitives become one entry, later entries overwrite earlier ones; the lemmas below state what the map holds |
| FileProcessor.FlattenEmpty | app/server/core/file_processor.py:193-205 | the flattened map is empty exactly when the value holds no primitive anywhere |
| FileProcessor.FlattenObjectKeys | app/server/core/file_processor.py:193-196 | an object's keys are exactly its members' keys under `prefix__key` (or `key` at the top) |
| FileProcessor.FlattenObjectLaterWins | app/server/core/file_processor.py:196 | on a key collision the value comes from the last member that produces the key |
| FileProcessor.FlattenArrayKeys | app/server/core/file_processor.py:197-200 | an array's keys are exactly its elements' keys under `prefix_i` |
| FileProcessor.FlattenArrayLaterWins | app/server/core/file_processor.py:200 | on a key collision the value comes from the last element that produces the key |
| FileProcessor.FlattenPrimitiveArray | app/server/core/file_processor.py:197-203 | an array of primitives flattens to exactly one entry per index, `prefix_i` |
| FileProcessor.ItemKeyDistinct | app/server/core/file_processor.py:199 | different indices give different element keys |
| FileProcessor.Scan | app/server/core/file_processor.py:223-233 | the scan yields one outcome per line |
| FileProcessor.ScanLine | app/server/core/file_processor.py:224-233 | one line's outcome: blank after stripping is skipped, a parser error is rejected with its message, anything else is flattened at the top level |
| FileProcessor.ScanAt | app/server/core/file_processor.py:224-233 | each line's outcome depends only on that line: blank, flattened, or rejected with the parser's message |
| FileProcessor.DiscoverJsonlFields | app/server/core/file_processor.py:207-237 | the method returns exactly the discovery result over the stripped lines, or the UTF-8 error |
| FileProcessor.DiscoveredFields | app/server/core/file_processor.py:207-237 | the discovery result: the UTF-8 error, or the fold over the lines of the stripped content split at `"\n"` |
| FileProcessor.FieldsUpTo | app/server/core/file_processor.py:223-233 | the discovery loop as a fold: union of each parsed line's keys, stopping at the first rejected line with its 1-based number |
| FileProcessor.FieldsPass | app/server/core/file_processor.py:223-233 | the loop's result is the fold of the per-line outcomes |
| FileProcessor.FieldsSucceed | app/server/core/file_processor.py:228-233 | discovery succeeds exactly when no line is rejected |
| FileProcessor.FieldsUnion | app/server/core/file_processor.py:231 | a field is discovered exactly when some line's flattening has it |
| FileProcessor.FieldsFirstError | app/server/core/file_processor.py:223-233 | a failure is `InvalidJson` at the 1-based number of the first rejected line, with that line's message |
| FileProcessor.FieldsOrderIndependent | app/server/core/file_processor.py:217-231 | reordering the lines changes neither whether discovery succeeds nor the fields found |
| FileProcessor.DiscoverIgnoresLeadingSpace | app/server/core/file_processor.py:221 | leading whitespace before the first line changes nothing |
| FileProcessor.BuildJsonlRecords | app/server/core/file_processor.py:255-284 | the method returns exactly the records, or the first error, of the two passes |
| FileProcessor.JsonlRecords | app/server/core/file_processor.py:255-284 | the records of the upload: the UTF-8 error, or both passes over the lines of the stripped content |
| FileProcessor.RecordsOfLines | app/server/core/file_processor.py:255-284 | discovery first, "no valid JSON objects" when it finds no field, then the second pass, "no valid records" when it yields none |
| FileProcessor.RecordsUpTo | app/server/core/file_processor.py:264-281 | the second loop as a fold: one record per parsed line, stopping at the first rejected line with its 1-based number |
| FileProcessor.RecordsPass | app/server/core/file_processor.py:264-281 | the second loop's result is the fold of the per-line outcomes |
| FileProcessor.FillRecord | app/server/core/file_processor.py:275-277 | a record has exactly the discovered fields, each holding the line's value or null |
| FileProcessor.RecordsFollowLines | app/server/core/file_processor.py:264-279 | with no rejected line there is one record per parsed line, in order, each filled from that line |
| FileProcessor.JsonlRecordsShape | app/server/core/file_processor.py:255-284 | on success discovery succeeded, there is one record per parsed line, and each record has exactly the discovered fields, holding its line's values with nulls for the rest |
| FileProcessor.JsonlRecordsErrors | app/server/core/file_processor.py:255-284 | "no valid JSON objects" occurs exactly when discovery finds no field; discovery errors pass through; success occurs exactly when discovery finds a field |
| FileProcessor.RecordsNonEmpty | app/server/core/file_processor.py:283-284 | once a field is found, the records pass succeeds with at least one record, so the "no valid records" branch is unreachable |
| FileProcessor.LastIndexOf | app/server/core/file_processor.py:23-24 | the position found holds the last occurrence of the character, and none is found exactly when the character is absent |
| FileProcessor.DropExtension | app/server/core/file_processor.py:23-24 | the stem is a prefix of the name that ends right before its last dot, or the whole name when it has no dot |
| FileProcessor.ReplaceBad | app/server/core/file_processor.py:27 | the regex substitution keeps the length and maps every character outside `[a-zA-Z0-9_]` to `_` |
| FileProcessor.PreValidationNameShape | app/server/core/file_processor.py:22-35 | the candidate is non-empty, uses only `[A-Za-z0-9_]` and starts with a letter or `_`; it is the cleaned stem itself when that already is an identifier, `_` and the stem when the stem opens with another character, and `table` for an empty stem |
| FileProcessor.PreValidationNameIdempotent | app/server/core/file_processor.py:22-35 | sanitizing a sanitized candidate changes nothing |
| FileProcessor.PreValidationName | app/server/core/file_processor.py:22-35 | the candidate before validation: stem, bad characters to `_`, `_` in front of a leading non-letter, `table` for nothing |
| FileProcessor.SanitizeTableName | app/server/core/file_processor.py:17-44 | `sanitize_table_name`: the candidate when the validator accepts it, else `table_` and the stem's hash modulo 100000 |
| FileProcessor.SanitizeTableNameShape | app/server/core/file_processor.py:17-44 | the table name is always a well-formed identifier: the candidate when it is accepted, else `table_` and at most five digits |
| FileProcessor.FallbackName | app/server/core/file_processor.py:42 | the fallback `table_<hash % 100000>` is a well-formed identifier made of `table_` and one to five decimal digits |
| FileProcessor.Lower | app/server/core/file_processor.py:58 | lower-casing maps each character on its own |
| FileProcessor.ReplaceChar | app/server/core/file_processor.py:58 | a one-character replace maps each character on its own |
| FileProcessor.CleanColumnName | app/server/core/file_processor.py:58 | `col.lower().replace(' ', '_').replace('-', '_')`, in that order |
| FileProcessor.CleanColumnNameShape | app/server/core/file_processor.py:58 | column cleaning keeps the length, turns spaces and hyphens into `_`, lower-cases the rest, and leaves no space, hyphen or capital (the CSV, JSON and JSONL paths, lines 58, 130 and 290, use the same expression) |
| FileProcessor.CleanColumnNameIdempotent | app/server/core/file_processor.py:58 | cleaning a cleaned column name changes nothing |
| FileProcessor.CheckJsonArray | app/server/core/file_processor.py:120-124 | a document passes exactly when it is a non-empty array; otherwise the error is "must be an array" or "array is empty" |

Behaviour worth knowing:

- The rendered schema has `columns + 4` lines per table. Besides the column
  lines the code appends four fixed ones: `Table: …`, `Columns:`,
  `Row count: …` and the empty line (`app/server/core/llm_processor.py:133-140`).
- A `QueryRequest` without a provider prefers `openai`
  (`app/server/core/data_models.py:18-20`). The model takes the preference as
  given in `QueryRequest`, so that default lives outside it.
- The JSONL "Invalid JSON on line N" numbers count lines of the stripped
  content. A file that starts with blank lines therefore reports numbers
  smaller than its own line numbers. `FieldsFirstError` and
  `DiscoverIgnoresLeadingSpace` state this.

## Left out

- The provider SDK calls are left out. This covers the client construction,
  prompt templates, model names, temperatures and the response objects.
  A call is an opaque `service` function. The request records the provider,
  the kind of completion, the rendered schema, the query text and the token budget.
- Environment lookup (`os.environ.get`) is replaced by the `Credentials` value.
- pandas, SQLite and the table write are I/O. So are the schema and sample
  queries after the write, and the result dictionaries. For the same reason
  the model omits the outer `Error converting … to SQLite: …` re-raise in the
  converters.
- `convert_csv_to_sqlite` and `convert_json_to_sqlite` are not modelled
  beyond the column cleaning and the two JSON array checks.
- `json.loads` is the `parse` parameter. JSON number literals are opaque text.
  Duplicate keys inside one object are not modelled; an object is a sequence
  of members.
- `validate_identifier` is not part of this model. It is the `valid` parameter.
- Python's randomised string `hash` is the `hash` parameter.
- FileProcessor.Lower: lower-cases ASCII letters only. Python's `str.lower`
  also maps non-ASCII letters, and some of those change length.
- Column names that collide after cleaning are not modelled. That is a
  pandas concern at table-write time.
- `FieldsOrderIndependent`: states that the same multiset of lines gives the
  same result. It does not relate error line numbers across orders.
