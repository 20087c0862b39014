/**
 * The geometry-based protocol (struct CustomGeometry): barcode and UMI are
 * each described by a TagGeometry instead of a fixed length. The length,
 * maxValue and end fields only mirror Rule's so that generic code can take
 * either.
 */
module CustomGeometries {
  import opened Tags
  import opened Rules

  class CustomGeometry {
    var umiGeo: TagGeometry
    var bcGeo: TagGeometry
    var barcodeLength: U32
    var umiLength: U32
    var maxValue: U32
    var end: BarcodeEnd

    /**
     * Both geometries start as default TagGeometry values; the four Rule-like
     * fields are never initialised, so nothing is promised about them.
     */
    constructor ()
      ensures umiGeo == EmptyGeometry && bcGeo == EmptyGeometry
    {
      umiGeo := EmptyGeometry;
      bcGeo := EmptyGeometry;
    }

    /** CustomGeometry::set_umi_geo: installs g and copies its declared length into umiLength. */
    method SetUmiGeo(g: TagGeometry)
      modifies this
      ensures umiGeo == g && umiLength == g.length
      ensures bcGeo == old(bcGeo) && barcodeLength == old(barcodeLength)
      ensures maxValue == old(maxValue) && end == old(end)
    {
      umiGeo := g;
      umiLength := umiGeo.length;
    }

    /** CustomGeometry::set_bc_geo: installs g and copies its declared length into barcodeLength. */
    method SetBcGeo(g: TagGeometry)
      modifies this
      ensures bcGeo == g && barcodeLength == g.length
      ensures umiGeo == old(umiGeo) && umiLength == old(umiLength)
      ensures maxValue == old(maxValue) && end == old(end)
    {
      bcGeo := g;
      barcodeLength := bcGeo.length;
    }
  }
}
