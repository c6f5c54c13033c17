/** The pipeline vocabulary the preprocessor fills in: shader stages, the
    graphics-API enumerants it hands on, and vertex attributes. These types are
    declared next to the preprocessor, not in it. */
module Pipeline {

  /** One flag of the `PipelineStages` bit set. */
  datatype Stage = Vertex | Fragment | Geometry | TessControl | TessEval | Compute

  /** The component types `gl::FLOAT`, `gl::SHORT`, `gl::UNSIGNED_BYTE`, `gl::BYTE`. */
  datatype ComponentType = GlFloat | GlShort | GlUnsignedByte | GlByte

  /** The primitive topologies `gl::TRIANGLES` and `gl::LINES`. */
  datatype Topology = GlTriangles | GlLines

  /** `VertexAttribute`: component type, component count, normalisation, the
      `u32` binding slot and the `i32` relative offset. */
  datatype VertexAttribute = VertexAttribute(ty: ComponentType, size: nat, normalized: bool, slot: nat, relativeOffset: int)
}
