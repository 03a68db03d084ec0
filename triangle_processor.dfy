/** The parameters of the triangle library's Processor that the triangulate and
    facemask canvases set. The triangulation itself is not part of this model. */
module TriangleProcessor {

  /** The library's wireframe modes used by the demos (WithoutWireframe = 0,
      WithWireframe = 1). */
  const WithoutWireframe: int := 0
  const WithWireframe: int := 1

  /** A copy of a Processor's parameters (`triangle.Image{*c.processor}`). */
  datatype Params = Params(maxPoints: int, pointsThreshold: int, pointRate: real,
                           wireframe: int, strokeWidth: int, isStrokeSolid: bool,
                           grayscale: bool)

  class Processor {
    const blurRadius: int
    const noise: int
    const blurFactor: int
    const edgeFactor: int
    const bgColor: string
    var maxPoints: int
    var pointsThreshold: int
    var pointRate: real
    var wireframe: int
    var strokeWidth: int
    var isStrokeSolid: bool
    var grayscale: bool

    function Current(): Params
      reads this
    {
      Params(maxPoints, pointsThreshold, pointRate, wireframe, strokeWidth, isStrokeSolid, grayscale)
    }

    /** The composite literal both canvases build in NewCanvas: blur radius 2, no
        noise, blur factor 2, edge factor 4, a transparent white background, and the
        given tunable parameters. */
    constructor (p: Params)
      ensures Current() == p
      ensures blurRadius == 2 && noise == 0 && blurFactor == 2 && edgeFactor == 4
      ensures bgColor == "#ffffff00"
    {
      blurRadius, noise, blurFactor, edgeFactor := 2, 0, 2, 4;
      bgColor := "#ffffff00";
      maxPoints, pointsThreshold, pointRate := p.maxPoints, p.pointsThreshold, p.pointRate;
      wireframe, strokeWidth := p.wireframe, p.strokeWidth;
      isStrokeSolid, grayscale := p.isStrokeSolid, p.grayscale;
    }
  }
}
