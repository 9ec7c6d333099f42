/**
 * The records read by the report generators and the table export
 * (`Dimension` and `DrawingData` in types.ts).
 *
 * The optional flags `isWeld?` and `isGDT?` are plain booleans here: an
 * absent flag is `false`, which is how JavaScript's truthiness reads it.
 * The fields `nominal`, `upperTol`, `lowerTol`, `unit` and `reportDate`
 * are never read by the modelled code and are not represented.
 */
module Types {
  datatype Dimension = Dimension(
    balloonId: string,
    characteristic: string,
    isWeld: bool,
    isGDT: bool,
    results: seq<string>)

  datatype DrawingData = DrawingData(
    drawingNumber: string,
    partName: string,
    dimensions: seq<Dimension>)
}
