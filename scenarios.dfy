/**
 * Callers' view: what the contracts of Extract and of the CustomGeometry
 * setters let a read-processing loop conclude, on small reads.
 */
module Scenarios {
  import opened Tags
  import opened Rules
  import opened CustomGeometries

  /** One contiguous 6-base fragment at the start of the read. */
  method SingleFragment()
  {
    var g := TagGeometry(0, [Piece(0, 6)], 6, 6);
    var status, out := g.Extract("ACGTTTGGCCAA", "stale");
    assert status == Ok && out == "ACGTTT";
    status, out := g.Extract("ACGT", "stale");
    assert status == TooShort && out == "stale";
  }

  /** Two fragments with a gap between them are joined in list order. */
  method SplitFragments()
  {
    var g := TagGeometry(0, [Piece(8, 4), Piece(0, 4)], 8, 12);
    var status, out := g.Extract("AAAACGTCBBBB", []);
    assert g.pieces[1..] == [Piece(0, 4)] && g.pieces[1..][1..] == [];
    assert status == Ok && out == "BBBBAAAA";
  }

  /** No fragments: every read gives the empty tag. */
  method NoFragments(read: string, to: string)
  {
    var status, out := EmptyGeometry.Extract(read, to);
    assert status == Ok && out == [];
  }

  /** A geometry whose largestIndex does not cover its fragments lets substr throw. */
  method UncheckedFragment()
  {
    var g := TagGeometry(0, [Piece(0, 2), Piece(5, 1)], 3, 0);
    var status, out := g.Extract("ACG", []);
    assert status == OutOfRange;
    assert out == "AC";
  }

  /** After both setters, the mirrored lengths are those of the installed geometries. */
  method InstallGeometries(bc: TagGeometry, umi: TagGeometry, read: string)
    requires bc.WellFormed() && umi.WellFormed()
  {
    var c := new CustomGeometry();
    c.SetBcGeo(bc);
    c.SetUmiGeo(umi);
    assert c.bcGeo == bc && c.umiGeo == umi;
    var status, barcode := c.bcGeo.Extract(read, []);
    if |read| >= bc.largestIndex {
      assert status == Ok && |barcode| == c.barcodeLength;
    }
  }
}
