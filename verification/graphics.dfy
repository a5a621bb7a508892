/**
 * Images and layers, kept abstract: an image is known by its size, and a
 * crop is recorded as the image it was cut from, the offset of the cut and
 * the size asked for. What the pixels of a crop are is not modelled.
 */
module Graphics {
  import opened Geometry

  datatype TextImage =
    | Image(id: nat, size: Size)
      // an image of the game area, named by `id`
    | SubImage(source: TextImage, offset: Position, size: Size)
      // the part of `source` starting at `offset`, of the given size
  {
    function GetBoundableSize(): Size
    {
      size
    }

    /** The crop of this image at `offset` with the given size. */
    function ToSubImage(offset: Position, size: Size): TextImage
    {
      SubImage(this, offset, size)
    }
  }

  /** A 2D layer: an image drawn with its top-left corner at `offset`. */
  datatype Layer = Layer(image: TextImage, offset: Position)
}
