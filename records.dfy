/** The records the extractor passes around. */
module Records {

  /** `indices: [rowIndex, colIndex]`, both zero-based. */
  datatype Coord = Coord(row: nat, col: nat)

  /** A cell as `parseCSV` produces it: `{value, indices, cell}`. */
  datatype ParsedCell = ParsedCell(value: string, indices: Coord, cellRef: string)

  /** A cell of an embedded document: a parsed cell with its `embedding`. */
  datatype Cell = Cell(value: string, indices: Coord, cellRef: string, embedding: seq<real>)

  /** `{cellRef, similarity}` */
  datatype Match = Match(cellRef: string, similarity: real)
}
