/**
 * Orientation enumeration: the sizes under which a product may be placed
 * on a stock with a given usable size.
 */
module Orientation {
  import opened Stock

  /** The orientations tried for a product: the original size, then the
      rotated one when the product is not square. */
  function Orientations(prod: Size): (r: seq<Size>)
    ensures 1 <= |r| <= 2 && r[0] == prod
    ensures |r| == 2 <==> prod.h != prod.w
    ensures |r| == 2 ==> r[1] == Rotated(prod)
  {
    if prod.h != prod.w then [prod, Rotated(prod)] else [prod]
  }

  /** The sizes of `sizes` that fit `limit`, in their original order. */
  function KeepFitting(sizes: seq<Size>, limit: Size): (r: seq<Size>)
    ensures |r| <= |sizes|
    ensures forall x :: x in r <==> x in sizes && Fits(x, limit)
    ensures |sizes| > 0 && Fits(sizes[0], limit) ==> |r| > 0 && r[0] == sizes[0]
  {
    if sizes == [] then []
    else if Fits(sizes[0], limit) then [sizes[0]] + KeepFitting(sizes[1..], limit)
    else KeepFitting(sizes[1..], limit)
  }

  /** The filter works element by element and keeps the order of what it
      keeps: filtering a concatenation filters each part. */
  lemma {:induction false} KeepFittingAppend(a: seq<Size>, b: seq<Size>, limit: Size)
    ensures KeepFitting(a + b, limit) == KeepFitting(a, limit) + KeepFitting(b, limit)
  {
    if a != [] {
      assert (a + b)[1..] == a[1..] + b;
      KeepFittingAppend(a[1..], b, limit);
    } else {
      assert a + b == b;
    }
  }

  /** The valid orientations of a product of size `prod` on a stock whose
      usable size is `stockSize`. */
  function ValidSizes(prod: Size, stockSize: Size): (r: seq<Size>)
    ensures |r| <= 2
    ensures forall k :: 0 <= k < |r| ==> Fits(r[k], stockSize)
    ensures forall x :: x in r <==> (x == prod || (prod.h != prod.w && x == Rotated(prod))) && Fits(x, stockSize)
    ensures Fits(prod, stockSize) <==> |r| > 0 && r[0] == prod
    ensures prod.h == prod.w ==> |r| <= 1
    ensures |r| == 2 ==> r == [prod, Rotated(prod)]
  {
    KeepFitting(Orientations(prod), stockSize)
  }

  /** A product has two valid orientations exactly when it is not square and
      fits the stock both ways round. */
  lemma TwoValidSizes(prod: Size, limit: Size)
    ensures |ValidSizes(prod, limit)| == 2 <==> prod.h != prod.w && Fits(prod, limit) && Fits(prod, Rotated(limit))
  {
    RotatedTwice(prod, limit);
  }

  /** How many orientations of `prod` fit `limit`, counted directly. */
  function ValidCount(prod: Size, limit: Size): (n: nat)
    ensures n <= 2
  {
    (if Fits(prod, limit) then 1 else 0) + (if prod.h != prod.w && Fits(Rotated(prod), limit) then 1 else 0)
  }

  /** The o-th orientation of `prod` that fits `limit`, chosen directly: the
      original size when it fits and o is 0, otherwise the rotated one. */
  function ValidAt(prod: Size, limit: Size, o: nat): Size {
    if o == 0 && Fits(prod, limit) then prod else Rotated(prod)
  }

  /** The filtered list of orientations is exactly the direct count and
      choice above, position by position. */
  lemma ValidSizesIndexed(prod: Size, limit: Size)
    ensures |ValidSizes(prod, limit)| == ValidCount(prod, limit)
    ensures forall o :: 0 <= o < ValidCount(prod, limit) ==> ValidSizes(prod, limit)[o] == ValidAt(prod, limit, o)
  {
  }
}
