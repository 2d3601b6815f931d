/**
 * The value types the Redshift client works with: the dynamically typed
 * column values of a result row, the layout tree handed to the frontend,
 * and errors.
 */
module Models {
  import opened Wrappers

  /** An error value; its text is opaque to the client. */
  datatype Error = Error(message: string)

  /**
   * One column of a row. The Go iterator yields `[]any`; here each column is
   * a tagged variant so that "column i is a string" can be stated.
   */
  datatype Value = Text(s: string) | Number(n: int) | Flag(b: bool) | Null

  type Row = seq<Value>

  /**
   * One result of `rows.Next()`: a row (nil when the stream is exhausted)
   * together with an error (nil when the read succeeded).
   */
  datatype Step = Step(row: Option<Row>, err: Option<Error>)

  /** models.LayoutTypeNone, models.LayoutTypeTable, models.LayoutTypeView. */
  datatype LayoutType = LayoutNone | LayoutTable | LayoutView

  /** A node of the layout tree: a schema group, or a table or view leaf. */
  datatype Layout = Layout(
    name: string,
    schema: string,
    database: string,
    typ: LayoutType,
    children: seq<Layout>)
}
