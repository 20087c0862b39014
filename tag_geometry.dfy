/**
 * The layout of one tag (a cell barcode or a UMI) inside a sequencing read:
 * an ordered list of (start, length) fragments of the read whose substrings,
 * joined in list order, make up the tag (struct TagGeometry), and the
 * operation that cuts the tag out of a read (TagGeometry::extract).
 */
module Tags {

  /** The source's uint32_t. */
  type U32 = x: int | 0 <= x < 0x1_0000_0000

  /** Capacity of a geometry's fragment list (num_tag_pieces). */
  const NumTagPieces: nat := 16

  /** One (start, length) pair of the fragment list. */
  datatype Piece = Piece(start: U32, len: U32)

  /** The fixed-capacity fragment list: at most NumTagPieces entries, in order. */
  type Pieces = s: seq<Piece> | |s| <= NumTagPieces

  datatype Option<T> = None | Some(value: T)

  /**
   * std::string::substr(pos, n). None stands for the std::out_of_range it
   * throws when pos is past the end; otherwise the piece starts at pos and
   * has n characters, or fewer when the string ends first.
   */
  function Substr(s: string, pos: nat, n: nat): (r: Option<string>)
    ensures r.None? <==> pos > |s|
    ensures r.Some? ==> pos + |r.value| <= |s| && r.value == s[pos..pos + |r.value|]
    ensures r.Some? ==> |r.value| == if pos + n <= |s| then n else |s| - pos
  {
    if pos > |s| then None
    else if pos + n <= |s| then Some(s[pos..pos + n])
    else Some(s[pos..])
  }

  /** Every fragment starts inside the read (or just at its end): substr does not throw. */
  predicate StartsInRead(from: string, pieces: seq<Piece>)
  {
    forall i :: 0 <= i < |pieces| ==> pieces[i].start <= |from|
  }

  /** Every fragment lies wholly inside the read: substr is not cut short either. */
  predicate InRead(from: string, pieces: seq<Piece>)
  {
    forall i :: 0 <= i < |pieces| ==> pieces[i].start + pieces[i].len <= |from|
  }

  /** The read's characters that a fragment wholly inside the read covers. */
  function Slice(from: string, p: Piece): string
    requires p.start + p.len <= |from|
  {
    from[p.start..p.start + p.len]
  }

  /** Sum of the fragment lengths. */
  function TotalLength(pieces: seq<Piece>): nat
  {
    if pieces == [] then 0 else pieces[0].len + TotalLength(pieces[1..])
  }

  /** Where fragment i's characters begin in the gathered tag. */
  function Offset(pieces: seq<Piece>, i: nat): nat
    requires i <= |pieces|
  {
    TotalLength(pieces[..i])
  }

  /**
   * Reference definition of the gathered tag: the substr of each fragment,
   * front to back.
   */
  function Concat(from: string, pieces: seq<Piece>): string
    requires StartsInRead(from, pieces)
  {
    if pieces == [] then []
    else Substr(from, pieces[0].start, pieces[0].len).value + Concat(from, pieces[1..])
  }

  /** Gathering one more fragment appends that fragment's substr at the end. */
  lemma {:induction false} ConcatSnoc(from: string, pieces: seq<Piece>, p: Piece)
    requires StartsInRead(from, pieces) && p.start <= |from|
    ensures StartsInRead(from, pieces + [p])
    ensures Concat(from, pieces + [p]) == Concat(from, pieces) + Substr(from, p.start, p.len).value
  {
    if pieces != [] {
      assert (pieces + [p])[1..] == pieces[1..] + [p];
      ConcatSnoc(from, pieces[1..], p);
    }
  }

  /** The lengths of the first i + 1 fragments are the first one's and those of the next i. */
  lemma OffsetShift(pieces: seq<Piece>, i: nat)
    requires 0 < |pieces| && i < |pieces|
    ensures Offset(pieces, i + 1) == pieces[0].len + Offset(pieces[1..], i)
  {
    assert pieces[..i + 1][1..] == pieces[1..][..i];
  }

  /** Dropping the first fragment keeps the rest inside the read. */
  lemma InReadTail(from: string, pieces: seq<Piece>)
    requires InRead(from, pieces) && pieces != []
    ensures InRead(from, pieces[1..])
  {
  }

  /** When every fragment lies inside the read, the gathered tag is as long as the fragments together. */
  lemma {:induction false} ConcatLength(from: string, pieces: seq<Piece>)
    requires InRead(from, pieces)
    ensures StartsInRead(from, pieces)
    ensures |Concat(from, pieces)| == TotalLength(pieces)
  {
    if pieces != [] {
      assert pieces[0].start + pieces[0].len <= |from|;
      InReadTail(from, pieces);
      ConcatLength(from, pieces[1..]);
    }
  }

  /**
   * When every fragment lies inside the read, fragment i's characters of the
   * read sit, in order, at Offset(pieces, i) of the gathered tag.
   */
  lemma {:induction false} ConcatAt(from: string, pieces: seq<Piece>, i: nat)
    requires InRead(from, pieces) && i < |pieces|
    ensures StartsInRead(from, pieces)
    ensures Offset(pieces, i) + pieces[i].len <= |Concat(from, pieces)|
    ensures Concat(from, pieces)[Offset(pieces, i)..Offset(pieces, i) + pieces[i].len] == Slice(from, pieces[i])
  {
    ConcatLength(from, pieces);
    var rest := pieces[1..];
    InReadTail(from, pieces);
    ConcatLength(from, rest);
    var head := Substr(from, pieces[0].start, pieces[0].len).value;
    var tail := Concat(from, rest);
    assert Concat(from, pieces) == head + tail;
    assert |head| == pieces[0].len;
    if i == 0 {
      assert pieces[..0] == [];
    } else {
      ConcatAt(from, rest, i - 1);
      OffsetShift(pieces, i - 1);
      assert rest[i - 1] == pieces[i];
      var o := Offset(rest, i - 1);
      assert (head + tail)[|head| + o..|head| + o + pieces[i].len] == tail[o..o + pieces[i].len];
    }
  }

  /**
   * When every fragment lies inside the read, the gathered tag is as long as
   * the fragments together, and fragment i's characters of the read sit, in
   * order, at Offset(pieces, i) of the tag.
   */
  lemma ConcatInRead(from: string, pieces: seq<Piece>)
    requires InRead(from, pieces)
    ensures StartsInRead(from, pieces)
    ensures |Concat(from, pieces)| == TotalLength(pieces)
    ensures forall i :: 0 <= i < |pieces| ==>
              Offset(pieces, i) + pieces[i].len <= |Concat(from, pieces)| &&
              Concat(from, pieces)[Offset(pieces, i)..Offset(pieces, i) + pieces[i].len] == Slice(from, pieces[i])
  {
    ConcatLength(from, pieces);
    forall i | 0 <= i < |pieces|
      ensures Offset(pieces, i) + pieces[i].len <= |Concat(from, pieces)|
      ensures Concat(from, pieces)[Offset(pieces, i)..Offset(pieces, i) + pieces[i].len] == Slice(from, pieces[i])
    {
      ConcatAt(from, pieces, i);
    }
  }

  /** Extract's outcome: true, false, or the std::out_of_range thrown by substr. */
  datatype Status = Ok | TooShort | OutOfRange

  /**
   * Where one tag lies in a read. `length` and `largestIndex` are set by
   * whoever builds the geometry and are not derived from `pieces`.
   */
  datatype TagGeometry = TagGeometry(readNum: U32, pieces: Pieces, length: U32, largestIndex: U32)
  {
    /**
     * What the code that builds a geometry has to maintain and this type
     * never checks: every fragment ends at or before largestIndex, and
     * length is the sum of the fragment lengths.
     */
    predicate WellFormed()
    {
      && (forall i :: 0 <= i < |pieces| ==> pieces[i].start + pieces[i].len <= largestIndex)
      && length == TotalLength(pieces)
    }

    /**
     * TagGeometry::extract(from, to). The caller's string `to` goes in and
     * its new value comes out as `out`. A read shorter than largestIndex is
     * refused and `to` is left as it was. Otherwise `to` is cleared and each
     * fragment's substr is appended in list order; if a fragment starts past
     * the end of the read, substr throws and `to` keeps what was appended
     * before that fragment.
     */
    method Extract(from: string, to: string) returns (status: Status, out: string)
      ensures status == TooShort <==> |from| < largestIndex
      ensures status == TooShort ==> out == to
      ensures status == Ok <==> |from| >= largestIndex && StartsInRead(from, pieces)
      ensures status == Ok ==> out == Concat(from, pieces)
      ensures status == OutOfRange ==>
                exists k :: 0 <= k < |pieces| && pieces[k].start > |from| &&
                  StartsInRead(from, pieces[..k]) && out == Concat(from, pieces[..k])
      ensures WellFormed() ==> (status == Ok <==> |from| >= largestIndex)
      ensures WellFormed() && status == Ok ==>
                |out| == length &&
                forall i :: 0 <= i < |pieces| ==>
                  Offset(pieces, i) + pieces[i].len <= |out| &&
                  out[Offset(pieces, i)..Offset(pieces, i) + pieces[i].len] == Slice(from, pieces[i])
    {
      if |from| < largestIndex {
        return TooShort, to;
      }
      out := [];
      var i := 0;
      while i < |pieces|
        invariant 0 <= i <= |pieces|
        invariant StartsInRead(from, pieces[..i])
        invariant out == Concat(from, pieces[..i])
      {
        var p := pieces[i];
        var s := Substr(from, p.start, p.len);
        if s.None? {
          assert !StartsInRead(from, pieces) by {
            assert pieces[i].start > |from|;
          }
          return OutOfRange, out;
        }
        ConcatSnoc(from, pieces[..i], p);
        assert pieces[..i + 1] == pieces[..i] + [p];
        out := out + s.value;
        i := i + 1;
      }
      assert pieces[..i] == pieces;
      if WellFormed() {
        WellFormedInRead(from);
      }
      return Ok, out;
    }

    /** A well-formed geometry fits wholly inside every read at least largestIndex long. */
    lemma WellFormedInRead(from: string)
      requires WellFormed() && |from| >= largestIndex
      ensures InRead(from, pieces) && StartsInRead(from, pieces)
      ensures |Concat(from, pieces)| == length
      ensures forall i :: 0 <= i < |pieces| ==>
                Offset(pieces, i) + pieces[i].len <= |Concat(from, pieces)| &&
                Concat(from, pieces)[Offset(pieces, i)..Offset(pieces, i) + pieces[i].len] == Slice(from, pieces[i])
    {
      ConcatInRead(from, pieces);
    }
  }

  /** A default-constructed TagGeometry: read 0, no fragments, both bounds 0. */
  const EmptyGeometry: TagGeometry := TagGeometry(0, [], 0, 0)
}
