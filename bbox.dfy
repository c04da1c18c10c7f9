/** The named latitude/longitude rectangle of lmr_analyzer/bbox.py.

    The constructor takes the corners in the order name, lat1, lat2, lon1,
    lon2 and normalises them, so the caller may give either latitude (and
    either longitude) first. */
module BBox {

  datatype BoundingBox = BoundingBox(name: string, latMin: real, lonMin: real, latMax: real, lonMax: real)

  function Min(a: real, b: real): real { if a <= b then a else b }
  function Max(a: real, b: real): real { if a <= b then b else a }

  /** `BoundingBox.__init__`. */
  function NewBoundingBox(name: string, lat1: real, lat2: real, lon1: real, lon2: real): (b: BoundingBox)
    ensures b.name == name
    // latMin is the smaller latitude: one of the two, and below both
    ensures (b.latMin == lat1 || b.latMin == lat2) && b.latMin <= lat1 && b.latMin <= lat2
    ensures (b.latMax == lat1 || b.latMax == lat2) && b.latMax >= lat1 && b.latMax >= lat2
    ensures (b.lonMin == lon1 || b.lonMin == lon2) && b.lonMin <= lon1 && b.lonMin <= lon2
    ensures (b.lonMax == lon1 || b.lonMax == lon2) && b.lonMax >= lon1 && b.lonMax >= lon2
    ensures b.latMin <= b.latMax && b.lonMin <= b.lonMax
  {
    BoundingBox(name, Min(lat1, lat2), Min(lon1, lon2), Max(lat1, lat2), Max(lon1, lon2))
  }

  /** Swapping the two latitudes, or the two longitudes, gives the same box,
      and rebuilding a box from its own corners gives it back. */
  lemma NewBoundingBoxSymmetric(name: string, lat1: real, lat2: real, lon1: real, lon2: real)
    ensures NewBoundingBox(name, lat2, lat1, lon1, lon2) == NewBoundingBox(name, lat1, lat2, lon1, lon2)
    ensures NewBoundingBox(name, lat1, lat2, lon2, lon1) == NewBoundingBox(name, lat1, lat2, lon1, lon2)
    ensures var b := NewBoundingBox(name, lat1, lat2, lon1, lon2);
            NewBoundingBox(name, b.latMin, b.latMax, b.lonMin, b.lonMax) == b
  {
  }

  /** The test fixture ("TestBox", 10, 20, 30, 40): arguments 2 and 3 are
      latitudes, arguments 4 and 5 longitudes. */
  lemma TestBoxCorners()
    ensures NewBoundingBox("TestBox", 10.0, 20.0, 30.0, 40.0)
            == BoundingBox("TestBox", 10.0, 30.0, 20.0, 40.0)
  {
  }
}
