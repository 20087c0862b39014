# Single-cell protocol geometry (salmon / alevin), modelled in Dafny

alevin decodes single-cell reads by cutting a cell barcode and a UMI out of
each read. `include/SingleCellProtocols.hpp` says where those tags sit:

- a **TagGeometry** lists up to 16 (start, length) fragments of a read. Its
  `extract` checks that the read is at least `largest_index` long, then clears
  the output string and appends each fragment's `substr` in list order;
- a **Rule** fixes barcode length, UMI length, read end and `maxValue` for one
  chemistry. The presets are DropSeq, InDrop (plus its W1 adapter), CITESeq
  (plus a feature-tag start and length), ChromiumV3, Chromium, Gemcode,
  QuartzSeq2, CELSeq, CELSeq2 and the all-zero Custom placeholder;
- a **CustomGeometry** holds one TagGeometry for the barcode and one for the
  UMI. Its setters copy the geometry's declared length into `barcodeLength`
  or `umiLength`.

Files:

- `tag_geometry.dfy` (module `Tags`): fragments, `std::string::substr` and
  `TagGeometry` with `Extract`. `Concat` is the reference definition of the
  gathered tag, and the lemmas say what it contains.
- `rules.dfy` (module `Rules`): `Rule`, the preset constants, and the classes
  `InDrop` and `CITESeq` for the presets with settable extra fields. It also
  has lemmas that pin down the constants.
- `custom_geometry.dfy` (module `CustomGeometries`): the `CustomGeometry`
  class.
- `scenarios.dfy` (module `Scenarios`): caller-side methods. They show what the
  contracts give on concrete reads.

Modelling choices:

- `TagGeometry` is a value in C++: it is copied into a CustomGeometry. Here it
  is a datatype. `Extract` is a method on it, and its `while` loop mirrors the
  source's `for` loop.
- The caller's output string `to` is passed in, and its new value is returned
  as `out`. The read `from` is a value parameter. So `extract` visibly changes
  nothing but `to`.
- The outcome is `Ok` (returned true), `TooShort` (returned false) or
  `OutOfRange`. `OutOfRange` is the `std::out_of_range` that `substr` throws
  when a fragment starts past the end of the read. `largest_index` is never
  compared with the fragments, so the source does not rule this out.
- `substr` is modelled exactly. It throws when the start is past the end. It
  cuts the length short at the end of the read.
- `TagGeometry.WellFormed` states the duty of the code that builds a geometry:
  every fragment ends by `largestIndex`, and `length` is the sum of the
  fragment lengths. For a well-formed geometry, `Extract` succeeds exactly when
  the read is long enough. The tag then has `length` characters, and fragment
  i's bases sit at `Offset(pieces, i)` of the tag.
- `uint32_t` is the subset type `U32`, and `size_t` is `U64`. Fragment capacity
  is the subset type `Pieces` (at most 16 entries).
- Nothing in `include/SingleCellProtocols.hpp` assigns the `Rule` fields after
  construction, so `Rule` is a datatype. The fields are public, though, and
  callers elsewhere could assign them (see "## Left out"). InDrop and CITESeq
  each hold a constant `rule` beside their mutable extra fields.

Notes on the code:

- The length check (line 24) comes before `to.clear()` (line 25), so a short
  read leaves `to` untouched. `Tags.TagGeometry.Extract` states this.
- `maxValue == 4^barcodeLength` holds only for DropSeq, Gemcode, QuartzSeq2,
  CELSeq and CELSeq2. The other presets differ:
  - InDrop stores 22347776, which is no power of four. It equals
    4^8 + 4^9 + 4^10 + 4^11 + 4^12, the number of barcodes of 8 to 12 bases,
    which fits the variable-length barcodes of lines 64-66;
  - Custom stores 0;
  - the three 16-base presets store 2^32 - 1, because 4^16 does not fit in a
    `uint32_t`.
- A read of at least `largest_index` bases yields the full concatenation of
  the fragments only for a well-formed geometry. The code does not check
  this, and with an ill-formed geometry `substr` may cut a fragment short or
  throw.

## Model

| member | source | states |
|---|---|---|
| Tags.Substr | include/SingleCellProtocols.hpp:27 | `substr(pos, n)` fails (throws) exactly when pos is past the end; otherwise the result is the read's characters from pos, n of them or up to the end of the read if that comes first |
| Tags.ConcatSnoc | include/SingleCellProtocols.hpp:26-28 | appending one more fragment to the list appends that fragment's substring to the gathered tag, so the loop builds the tag in list order |
| Tags.ConcatLength | include/SingleCellProtocols.hpp:25-28 | when all fragments lie inside the read, the gathered tag's length is the sum of the fragment lengths |
| Tags.ConcatAt | include/SingleCellProtocols.hpp:25-28 | when all fragments lie inside the read, fragment i's bases appear verbatim in the tag, starting after the earlier fragments' lengths |
| Tags.ConcatInRead | include/SingleCellProtocols.hpp:25-28 | both of the above for every fragment at once: the tag is exactly the fragments' bases laid end to end in list order |
| Tags.TagGeometry.Extract | include/SingleCellProtocols.hpp:23-30 | too-short read (`|from| < largestIndex`) exactly when the result is false, and then `to` is unchanged; true exactly when the read is long enough and no fragment starts past its end, and then `to` is the ordered concatenation of the fragments' substrings, whatever it held before; otherwise substr throws at the first such fragment and `to` holds the fragments before it; for a well-formed geometry, success exactly when the read is long enough, with a tag of `length` bases whose i-th fragment is the read's bases at that fragment |
| Tags.TagGeometry.WellFormedInRead | include/SingleCellProtocols.hpp:20-24 | a geometry whose fragments end by largest_index and whose length is their sum lies wholly inside every read that passes the length check, and gathers a tag of exactly `length` bases |
| Rules.Rule.SetUmiGeo | include/SingleCellProtocols.hpp:49 | the base rule's UMI geometry setter leaves the rule unchanged |
| Rules.Rule.SetBcGeo | include/SingleCellProtocols.hpp:50 | the base rule's barcode geometry setter leaves the rule unchanged |
| Rules.InDrop.constructor | include/SingleCellProtocols.hpp:68-70 | an InDrop rule has barcode length 42, UMI length 6, 5' end, maxValue 22347776 and an empty W1 |
| Rules.InDrop.SetW1 | include/SingleCellProtocols.hpp:71-73 | W1 becomes the given string verbatim, with no validation; the rule constants cannot change |
| Rules.CITESeq.constructor | include/SingleCellProtocols.hpp:77-82 | a CITE-seq rule has barcode length 16, UMI length 10, 5' end, maxValue 4294967295, feature length 15 and feature start 10 |
| Rules.CITESeq.SetFeatureLength | include/SingleCellProtocols.hpp:83 | only the feature length changes, to the given value |
| Rules.CITESeq.SetFeatureStart | include/SingleCellProtocols.hpp:84 | only the feature start changes, to the given value |
| Rules.PresetsAreFivePrime | include/SingleCellProtocols.hpp:56-117 | all ten presets anchor barcode and UMI at the 5' end |
| Rules.MaxValueIsBarcodeSpace | include/SingleCellProtocols.hpp:56-111 | for DropSeq, Gemcode, QuartzSeq2, CELSeq and CELSeq2, maxValue is 4^barcodeLength, the number of distinct barcodes; the 16-base presets (ChromiumV3, Chromium, CITESeq) would need 4^16 = 2^32, one more than a uint32_t holds, and store 2^32 - 1 |
| Rules.InDropMaxValueNotPowerOfFour | include/SingleCellProtocols.hpp:68 | InDrop's maxValue is 4^n for no n |
| Rules.InDropMaxValueIsVariableBarcodeSpace | include/SingleCellProtocols.hpp:64-68 | InDrop's maxValue is 4^8 + 4^9 + 4^10 + 4^11 + 4^12, the number of distinct barcodes of 8 to 12 bases |
| Rules.CustomMaxValueNotPowerOfFour | include/SingleCellProtocols.hpp:116 | the Custom placeholder's maxValue, 0, is 4^n for no n |
| CustomGeometries.CustomGeometry.constructor | include/SingleCellProtocols.hpp:121-132 | both geometries start as default TagGeometry values (read 0, no fragments, bounds 0); nothing is promised for the never-initialised length, maxValue and end fields |
| CustomGeometries.CustomGeometry.SetUmiGeo | include/SingleCellProtocols.hpp:126 | installs g as the UMI geometry and sets umiLength to g's length; barcode geometry, barcodeLength, maxValue and end are unchanged |
| CustomGeometries.CustomGeometry.SetBcGeo | include/SingleCellProtocols.hpp:127 | installs g as the barcode geometry and sets barcodeLength to g's length; UMI geometry, umiLength, maxValue and end are unchanged |

## Left out

- The `Rule` constructor's call `alevin::types::AlevinUMIKmer::k(umiLength)` sets a process-wide UMI k-mer width. That code is in `AlevinTypes.hpp`, which is not part of this model.
- `operator<<` for TagGeometry is only declared in this file, and it is diagnostic output.
- `chobo::static_vector` is modelled as a sequence of at most 16 fragments. What the container does on a 17th insertion is not part of this model.
- The default `Rule()` constructor leaves every field uninitialised. It is not modelled, because no value can be promised for those fields.
- `BarcodeEnd` comes from `AlevinOpts.hpp`. It is modelled as the two values FIVE and THREE.
- The `read_num` field is carried but never used: `extract` does not check which read of a pair it was given.
- Tags.TagGeometry.Extract: `from` and `to` are separate values, so the C++ call `extract(s, s)` cannot be expressed. In that call, clearing `to` also empties `from`.
- Tags.TagGeometry.Extract: memory exhaustion while appending (`std::bad_alloc`) is not modelled.
- The TagGeometry is an immutable value here, although `extract` is a non-const member in C++. Its body assigns no field, so nothing is lost.
- InDrop and CITESeq inherit `set_umi_geo`/`set_bc_geo` from `Rule`. They are the same no-ops and are covered by `Rules.Rule.SetUmiGeo` and `Rules.Rule.SetBcGeo`.
- The public `Rule` fields are modelled as constants, because nothing in this file assigns them after construction. An assignment to them by other code is not modelled.
