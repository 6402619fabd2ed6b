/** The rows that a translator produces and the pipeline carries. */
module Spans {
  import opened Wrappers

  datatype Json =
    | Null
    | Bool(truth: bool)
    | Number(n: int)
    | Text(text: string)
    | Array(items: seq<Json>)
    | Object(fields: map<string, Json>)

  datatype SpanType = Task | Llm | Tool | Wait

  /** The versions captured when a span is first created. */
  datatype Origin = Origin(plugin: Option<string>, bt: string, source: Option<string>)

  /** The causal watermark of an aggregate row. */
  datatype Version = Version(ts: int, native: Option<string>)

  /** `payload` stands for the columns that no rule of the pipeline inspects. */
  datatype SpanRow = SpanRow(
    spanId: string,
    rootSpanId: string,
    parents: seq<string>,
    spanType: SpanType,
    endMs: Option<int>,
    metadata: Option<Json>,
    origin: Option<Origin>,
    lateMergeKey: Option<string>,
    lateMergeVersion: Option<Version>,
    payload: string)

  datatype SpanOp = Insert(row: SpanRow) | Merge(row: SpanRow)
}
