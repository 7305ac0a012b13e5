/** The parts of a parsed aws-services.info page that the report tools read,
    given as values: the HTML parser itself is not modelled, only the results
    of the lookups the tools make on its tree. */
module Html {

  datatype Option<+T> = None | Some(value: T)

  /** One table cell (a `td`): its visible text (`.text`, not yet stripped) and
      the `href` attribute of its first anchor, None when the cell has no
      anchor or the anchor has no `href`. */
  datatype Cell = Cell(text: string, href: Option<string>)

  /** The `td` cells of one table row, in document order. */
  type Row = seq<Cell>

  /** One `p` element: the text of its first `b` element (None when it has
      none) and the text of the node right after that `b` (None when there is
      no next sibling). */
  datatype Paragraph = Paragraph(bold: Option<string>, sibling: Option<string>)

  /** A page: its `p` elements in document order, the text of its first
      `<font color="green">` element, and the rows (`tr`) of its
      `table table-striped` table, None when the page has no such table. */
  datatype Page = Page(paragraphs: seq<Paragraph>, greenFont: Option<string>, table: Option<seq<Row>>)
}
