/**
 * generate_offshore_bounds.py: the offshore map alone. It builds the same ranges and fills the same
 * (lon, lat) grid of zeros, lat by lat and lon by lon, as generateBounds does for one raster, then
 * transposes it for the spreadsheet.
 */
module OffshoreBounds {
  import opened Wrappers
  import opened Boundaries

  /**
   * main(minLon, maxLon, minLat, maxLat): valuesMERRA over latsMERRA and lonsMERRA, transposed.
   * A cell is 1 exactly when the raster point nearest to it holds 1, and 0 otherwise.
   */
  method OffshoreTable(minLon: real, maxLon: real, minLat: real, maxLat: real, raster: Raster)
    returns (res: Result<seq<seq<real>>, BoundsError>)
    ensures var lats, lons := LatitudeRange(minLat, maxLat), LongitudeRange(minLon, maxLon);
            && (res.Err? <==> BoundsFailure(raster, lats, lons).Some?)
            && (res.Err? ==> res.error == BoundsFailure(raster, lats, lons).value)
            && (res.Ok? ==> && |res.value| == |lats|
                            && forall q :: 0 <= q < |lats| ==>
                                 (&& |res.value[q]| == |lons|
                                  && forall p :: 0 <= p < |lons| ==>
                                       (res.value[q][p] == 1.0 || res.value[q][p] == 0.0)
                                       && (res.value[q][p] == 1.0 <==>
                                             |raster.lat| > 0 && |raster.lon| > 0 && InBand(raster, lats[q], lons[p])
                                             && Hit(raster, lats[q], lons[p]))))
  {
    var latsMerra := LatitudeRange(minLat, maxLat);
    var lonsMerra := LongitudeRange(minLon, maxLon);
    var values := GenerateBounds(raster, latsMerra, lonsMerra);
    if values.Err? {
      return Err(values.error);
    }
    forall p, q | 0 <= p < |lonsMerra| && 0 <= q < |latsMerra|
      ensures Marked(raster, latsMerra, lonsMerra, p, q) <==>
                |raster.lat| > 0 && |raster.lon| > 0 && InBand(raster, latsMerra[q], lonsMerra[p])
                && Hit(raster, latsMerra[q], lonsMerra[p])
    {
      MarkedOnRanges(raster, minLon, maxLon, minLat, maxLat, p, q);
    }
    return Ok(Transposed(values.value));
  }
}
